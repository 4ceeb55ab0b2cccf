/**
 The verification service (src/verification_service/service.rs) as a state
 machine that owns one-shot reply senders.
 */
module Verification {
  import opened Wrappers
  import opened TransparencyLog
  import opened LogService
  import opened Bags

  type Sender = nat

  datatype Package = Package(packageType: PackageType, packageSpecificId: string)

  datatype Info = Info(sender: Sender, artifactSpecificId: string, artifactHash: string)

  datatype Answer =
    | Verified
    | VerifyBuildError(error: string)
    | NonMatchingHash(buildId: string, artifactSpecificId: string, expected: string, fromBuild: string)
    | ArtifactNotFound(buildId: string, artifactSpecificId: string)

  datatype State = State(pending: map<Package, seq<Info>>, verifying: map<string, seq<Info>>)

  /** What the service returns to its caller; `Panicked` is a failed `expect` on the package type. */
  datatype Reply =
    | Waiting
    | Building(buildId: string)
    | Malformed
    | UnsupportedOperation(operation: Operation)
    | BuildNotStarted(error: string)
    | Panicked

  datatype Sent = Sent(sender: Sender, answer: Answer)

  /** The batch a step sends to a build. */
  datatype Batch = Batch(package: Package, buildId: string, infos: seq<Info>)

  datatype Effect = Effect(reply: Reply, sent: seq<Sent>, dropped: seq<Sender>, started: Option<Batch>)

  datatype Event =
    /** A transaction payload (`None` if it is not a log), its sender, and how a build start would end. */
    | Submit(log: Option<Log>, sender: Sender, build: Result<string, string>)
    | BuildFailed(buildId: string, error: string)
    | BuildResult(buildId: string, artifacts: seq<BuildArtifact>)

  function Senders(infos: seq<Info>): seq<Sender> {
    if infos == [] then [] else Senders(infos[..|infos| - 1]) + [infos[|infos| - 1].sender]
  }

  function Recipients(sent: seq<Sent>): seq<Sender> {
    if sent == [] then [] else Recipients(sent[..|sent| - 1]) + [sent[|sent| - 1].sender]
  }

  // --------------------------------------------------------------------- one step

  function PendingOf(st: State, p: Package): seq<Info> {
    if p in st.pending then st.pending[p] else []
  }

  function VerifyAddArtifact(st: State, p: Package, info: Info, numArtifacts: nat, build: Result<string, string>): (State, Effect) {
    var infos := PendingOf(st, p) + [info];
    if |infos| % U32_LIMIT != numArtifacts then
      (st.(pending := st.pending[p := infos]), Effect(Waiting, [], [], None))
    else
      var pending := st.pending - {p};
      match build
      case Err(e) => (st.(pending := pending), Effect(BuildNotStarted(e), [], Senders(infos), None))
      case Ok(id) =>
        (State(pending, st.verifying[id := infos]),
         Effect(Building(id), [], if id in st.verifying then Senders(st.verifying[id]) else [], Some(Batch(p, id, infos))))
  }

  function VerifyTransaction(st: State, log: Option<Log>, sender: Sender, build: Result<string, string>): (State, Effect) {
    match log
    case None => (st, Effect(Malformed, [], [sender], None))
    case Some(l) =>
      if !l.operation.AddArtifact? then (st, Effect(UnsupportedOperation(l.operation), [], [sender], None))
      else match l.packageType
        case None => (st, Effect(Panicked, [], [sender], None))
        case Some(pt) =>
          VerifyAddArtifact(st, Package(pt, l.packageSpecificId),
                            Info(sender, l.packageSpecificArtifactId, l.artifactHash), l.numArtifacts, build)
  }

  /** Artifact `i` is the first one with the id. */
  predicate FirstAt(artifacts: seq<BuildArtifact>, id: string, i: nat) {
    && i < |artifacts| && artifacts[i].artifactSpecificId == id
    && forall j :: 0 <= j < i ==> artifacts[j].artifactSpecificId != id
  }

  /** `iter().find`. */
  function FindArtifact(artifacts: seq<BuildArtifact>, id: string): (r: Option<BuildArtifact>)
    ensures r.None? <==> forall a :: a in artifacts ==> a.artifactSpecificId != id
    ensures forall i: nat :: FirstAt(artifacts, id, i) ==> r == Some(artifacts[i])
  {
    if artifacts == [] then None
    else if artifacts[0].artifactSpecificId == id then Some(artifacts[0])
    else
      assert forall i: nat :: FirstAt(artifacts, id, i) ==> i > 0 && FirstAt(artifacts[1..], id, i - 1);
      FindArtifact(artifacts[1..], id)
  }

  lemma {:induction false} FirstExists(artifacts: seq<BuildArtifact>, id: string) returns (i: nat)
    requires exists a :: a in artifacts && a.artifactSpecificId == id
    ensures FirstAt(artifacts, id, i)
  {
    if artifacts[0].artifactSpecificId == id {
      i := 0;
    } else {
      var k := FirstExists(artifacts[1..], id);
      i := k + 1;
    }
  }

  function AnswerFor(buildId: string, artifacts: seq<BuildArtifact>, info: Info): Answer {
    match FindArtifact(artifacts, info.artifactSpecificId)
    case None => Answer.ArtifactNotFound(buildId, info.artifactSpecificId)
    case Some(a) =>
      if a.artifactHash == info.artifactHash then Verified
      else NonMatchingHash(buildId, info.artifactSpecificId, info.artifactHash, a.artifactHash)
  }

  function AnswersOf(buildId: string, artifacts: seq<BuildArtifact>, infos: seq<Info>): seq<Sent> {
    if infos == [] then []
    else
      var last := infos[|infos| - 1];
      AnswersOf(buildId, artifacts, infos[..|infos| - 1]) + [Sent(last.sender, AnswerFor(buildId, artifacts, last))]
  }

  function FailuresOf(error: string, infos: seq<Info>): seq<Sent> {
    if infos == [] then []
    else FailuresOf(error, infos[..|infos| - 1]) + [Sent(infos[|infos| - 1].sender, VerifyBuildError(error))]
  }

  function Apply(st: State, event: Event): (State, Effect) {
    match event
    case Submit(log, sender, build) => VerifyTransaction(st, log, sender, build)
    case BuildFailed(id, error) =>
      if id in st.verifying then
        (st.(verifying := st.verifying - {id}), Effect(Waiting, FailuresOf(error, st.verifying[id]), [], None))
      else (st, Effect(Waiting, [], [], None))
    case BuildResult(id, artifacts) =>
      if id in st.verifying then
        (st.(verifying := st.verifying - {id}), Effect(Waiting, AnswersOf(id, artifacts, st.verifying[id]), [], None))
      else (st, Effect(Waiting, [], [], None))
  }

  /**
   A sender hears `Verified` exactly when the first artifact of the build with
   its id has its hash.
   */
  lemma VerifiedIff(buildId: string, artifacts: seq<BuildArtifact>, info: Info)
    ensures AnswerFor(buildId, artifacts, info) == Verified <==>
      exists i: nat :: FirstAt(artifacts, info.artifactSpecificId, i) && artifacts[i].artifactHash == info.artifactHash
  {
    var id := info.artifactSpecificId;
    assert forall i: nat :: FirstAt(artifacts, id, i) ==> artifacts[i] in artifacts;
    if exists a :: a in artifacts && a.artifactSpecificId == id {
      var i := FirstExists(artifacts, id);
    }
  }

  /** What a waiting sender must hear about its own artifact when a build ends with these artifacts. */
  ghost predicate AnswersRightly(buildId: string, artifacts: seq<BuildArtifact>, info: Info, answer: Answer) {
    && (answer == Verified <==>
          exists k: nat :: FirstAt(artifacts, info.artifactSpecificId, k) && artifacts[k].artifactHash == info.artifactHash)
    && (answer == Answer.ArtifactNotFound(buildId, info.artifactSpecificId) <==>
          forall a :: a in artifacts ==> a.artifactSpecificId != info.artifactSpecificId)
    && forall k: nat :: FirstAt(artifacts, info.artifactSpecificId, k) && artifacts[k].artifactHash != info.artifactHash ==>
         answer == NonMatchingHash(buildId, info.artifactSpecificId, info.artifactHash, artifacts[k].artifactHash)
  }

  lemma AnswerIsRight(buildId: string, artifacts: seq<BuildArtifact>, info: Info)
    ensures AnswersRightly(buildId, artifacts, info, AnswerFor(buildId, artifacts, info))
  {
    VerifiedIff(buildId, artifacts, info);
    var id := info.artifactSpecificId;
    if exists a :: a in artifacts && a.artifactSpecificId == id {
      var i := FirstExists(artifacts, id);
      assert artifacts[i] in artifacts;
    }
  }

  lemma {:induction false} AnswerAt(buildId: string, artifacts: seq<BuildArtifact>, infos: seq<Info>, i: nat)
    requires i < |infos|
    ensures |AnswersOf(buildId, artifacts, infos)| == |infos|
    ensures AnswersOf(buildId, artifacts, infos)[i] == Sent(infos[i].sender, AnswerFor(buildId, artifacts, infos[i]))
  {
    var n := |infos| - 1;
    if n > 0 {
      AnswerAt(buildId, artifacts, infos[..n], if i < n then i else 0);
    }
  }

  lemma {:induction false} FailureAt(error: string, infos: seq<Info>, i: nat)
    requires i < |infos|
    ensures |FailuresOf(error, infos)| == |infos|
    ensures FailuresOf(error, infos)[i] == Sent(infos[i].sender, VerifyBuildError(error))
  {
    var n := |infos| - 1;
    if n > 0 {
      FailureAt(error, infos[..n], if i < n then i else 0);
    }
  }

  /**
   The end of a build: everybody who waits for it hears, in order and once, the
   right answer about its own artifact, or the build's error; the build is
   forgotten, and nothing else changes.  The end of an unknown build does nothing.
   */
  lemma BuildEndAnswers(st: State, event: Event, id: string)
    requires (event.BuildResult? || event.BuildFailed?) && event.buildId == id
    ensures var (st', e) := Apply(st, event);
      && st'.pending == st.pending && e.dropped == [] && e.started.None?
      && (id !in st.verifying ==> st' == st && e.sent == [])
      && (id in st.verifying ==>
            var infos := st.verifying[id];
            && st'.verifying == st.verifying - {id} && |e.sent| == |infos|
            && forall i :: 0 <= i < |infos| ==>
                 && e.sent[i].sender == infos[i].sender
                 && (event.BuildResult? ==> AnswersRightly(id, event.artifacts, infos[i], e.sent[i].answer))
                 && (event.BuildFailed? ==> e.sent[i].answer == VerifyBuildError(event.error)))
  {
    if id in st.verifying {
      var infos := st.verifying[id];
      hide AnswersOf, FailuresOf, AnswersRightly;
      forall i | 0 <= i < |infos|
        ensures event.BuildResult? ==>
          var sent := AnswersOf(id, event.artifacts, infos);
          |sent| == |infos| && sent[i].sender == infos[i].sender && AnswersRightly(id, event.artifacts, infos[i], sent[i].answer)
        ensures event.BuildFailed? ==>
          var sent := FailuresOf(event.error, infos);
          |sent| == |infos| && sent[i] == Sent(infos[i].sender, VerifyBuildError(event.error))
      {
        if event.BuildResult? {
          AnswerAt(id, event.artifacts, infos, i);
          AnswerIsRight(id, event.artifacts, infos[i]);
        } else {
          FailureAt(event.error, infos, i);
        }
      }
      if infos == [] {
        NobodyToAnswer(id, event);
      }
    }
  }

  lemma NobodyToAnswer(id: string, event: Event)
    ensures event.BuildResult? ==> AnswersOf(id, event.artifacts, []) == []
    ensures event.BuildFailed? ==> FailuresOf(event.error, []) == []
  {
  }

  /** What a submission returns, and that one which cannot be verified changes nothing. */
  lemma SubmitReplies(st: State, event: Event)
    requires event.Submit?
    ensures var (st', e) := Apply(st, event);
      && e.sent == []
      && (event.log.None? <==> e.reply == Malformed)
      && (event.log.Some? && !event.log.value.operation.AddArtifact? <==>
            e.reply.UnsupportedOperation? && event.log.Some? && e.reply.operation == event.log.value.operation)
      && (event.log.Some? && event.log.value.operation.AddArtifact? && event.log.value.packageType.None? <==> e.reply == Panicked)
      && (!WellFormed(event) ==> st' == st)
      && (WellFormed(event) ==>
            && (e.reply == Waiting <==> !Completes(st, event))
            && (Completes(st, event) && event.build.Ok? ==> e.reply == Building(event.build.value) && e.started.Some?)
            && (Completes(st, event) && event.build.Err? ==> e.reply == BuildNotStarted(event.build.error) && e.started.None?))
  {
  }

  // ---------------------------------------------------------------- conservation

  ghost function Bag(infos: seq<Info>): multiset<Sender> {
    multiset(Senders(infos))
  }

  /** Every sender the service holds. */
  ghost function Held(st: State): multiset<Sender> {
    Total(st.pending, Bag) + Total(st.verifying, Bag)
  }

  ghost function Submitted(event: Event): multiset<Sender> {
    if event.Submit? then multiset{event.sender} else multiset{}
  }

  lemma BagAppend(infos: seq<Info>, info: Info)
    ensures Bag(infos + [info]) == Bag(infos) + multiset{info.sender}
  {
    assert (infos + [info])[..|infos|] == infos;
  }

  lemma {:induction false} AnswersReachAll(buildId: string, artifacts: seq<BuildArtifact>, infos: seq<Info>)
    ensures Recipients(AnswersOf(buildId, artifacts, infos)) == Senders(infos)
  {
    if infos != [] {
      var n := |infos| - 1;
      AnswersReachAll(buildId, artifacts, infos[..n]);
      var s := AnswersOf(buildId, artifacts, infos);
      assert s[..|s| - 1] == AnswersOf(buildId, artifacts, infos[..n]);
    }
  }

  lemma {:induction false} FailuresReachAll(error: string, infos: seq<Info>)
    ensures Recipients(FailuresOf(error, infos)) == Senders(infos)
  {
    if infos != [] {
      var n := |infos| - 1;
      FailuresReachAll(error, infos[..n]);
      var s := FailuresOf(error, infos);
      assert s[..|s| - 1] == FailuresOf(error, infos[..n]);
    }
  }

  lemma PendingPush(pending: map<Package, seq<Info>>, p: Package, infos: seq<Info>, info: Info)
    requires infos == if p in pending then pending[p] else []
    ensures Total(pending - {p}, Bag) + Bag(infos + [info]) == Total(pending, Bag) + multiset{info.sender}
    ensures Total(pending[p := infos + [info]], Bag) == Total(pending - {p}, Bag) + Bag(infos + [info])
  {
    hide Total;
    BagAppend(infos, info);
    TotalRemove(pending[p := infos + [info]], Bag, p);
    assert pending[p := infos + [info]] - {p} == pending - {p};
    if p in pending {
      TotalRemove(pending, Bag, p);
    } else {
      assert pending - {p} == pending;
    }
  }

  ghost function BagAt(verifying: map<string, seq<Info>>, id: string): multiset<Sender> {
    if id in verifying then Bag(verifying[id]) else multiset{}
  }

  lemma VerifyingPut(verifying: map<string, seq<Info>>, id: string, infos: seq<Info>)
    ensures Total(verifying[id := infos], Bag) + BagAt(verifying, id) == Total(verifying, Bag) + Bag(infos)
  {
    if id in verifying {
      TotalReplace(verifying, Bag, id, infos);
    } else {
      TotalInsert(verifying, Bag, id, infos);
    }
  }

  lemma AddConserves(st: State, p: Package, info: Info, n: nat, build: Result<string, string>)
    ensures var (st', e) := VerifyAddArtifact(st, p, info, n, build);
      Held(st) + multiset{info.sender} == Held(st') + multiset(e.dropped) && e.sent == []
  {
    hide Total, Senders;
    var infos, one := PendingOf(st, p), multiset{info.sender};
    PendingPush(st.pending, p, infos, info);
    var before, without := Total(st.pending, Bag), Total(st.pending - {p}, Bag);
    var bag, running := Bag(infos + [info]), Total(st.verifying, Bag);
    var (st', e) := VerifyAddArtifact(st, p, info, n, build);
    if e.reply.Building? {
      var id := build.value;
      VerifyingPut(st.verifying, id, infos + [info]);
      Moved(before, one, without, bag, running, Total(st'.verifying, Bag), BagAt(st.verifying, id));
      assert multiset(e.dropped) == BagAt(st.verifying, id);
    } else if e.reply.Waiting? {
      assert Total(st'.pending, Bag) == before + one;
      assert before + running + one == before + one + running;
    } else {
      assert multiset(e.dropped) == bag;
      assert before + running + one == before + one + running;
      assert without + running + bag == without + bag + running;
    }
  }

  lemma Moved(before: multiset<Sender>, one: multiset<Sender>, without: multiset<Sender>, bag: multiset<Sender>,
              running: multiset<Sender>, running': multiset<Sender>, replaced: multiset<Sender>)
    requires without + bag == before + one && running' + replaced == running + bag
    ensures before + running + one == without + running' + replaced
  {
    assert before + running + one == before + one + running;
    assert without + running' + replaced == without + (running' + replaced);
  }

  /** Ending a build answers everybody who waits for it. */
  lemma EndConserves(st: State, id: string, sent: seq<Sent>)
    requires id in st.verifying && Recipients(sent) == Senders(st.verifying[id])
    ensures Held(st) == Held(st.(verifying := st.verifying - {id})) + multiset(Recipients(sent))
  {
    TotalRemove(st.verifying, Bag, id);
  }

  /** No step creates or loses a sender: it is held, answered or dropped. */
  lemma StepConserves(st: State, event: Event)
    ensures var (st', e) := Apply(st, event);
      Held(st) + Submitted(event) == Held(st') + multiset(Recipients(e.sent)) + multiset(e.dropped)
  {
    hide Total, Senders, VerifyAddArtifact;
    match event
    case Submit(log, sender, build) =>
      if WellFormed(event) {
        var l := log.value;
        AddConserves(st, Package(l.packageType.value, l.packageSpecificId), InfoOf(event), l.numArtifacts, build);
      }
    case BuildFailed(id, error) =>
      if id in st.verifying {
        FailuresReachAll(error, st.verifying[id]);
        EndConserves(st, id, FailuresOf(error, st.verifying[id]));
      }
    case BuildResult(id, artifacts) =>
      if id in st.verifying {
        AnswersReachAll(id, artifacts, st.verifying[id]);
        EndConserves(st, id, AnswersOf(id, artifacts, st.verifying[id]));
      }
  }

  // ------------------------------------------------------------------- whole runs

  ghost function After(events: seq<Event>): State {
    if events == [] then State(map[], map[])
    else Apply(After(events[..|events| - 1]), events[|events| - 1]).0
  }

  ghost function LastEffect(events: seq<Event>): Effect
    requires events != []
  {
    Apply(After(events[..|events| - 1]), events[|events| - 1]).1
  }

  ghost function AllSubmitted(events: seq<Event>): multiset<Sender> {
    if events == [] then multiset{} else AllSubmitted(events[..|events| - 1]) + Submitted(events[|events| - 1])
  }

  ghost function AllAnswered(events: seq<Event>): multiset<Sender> {
    if events == [] then multiset{}
    else AllAnswered(events[..|events| - 1]) + multiset(Recipients(LastEffect(events).sent))
  }

  ghost function AllDropped(events: seq<Event>): multiset<Sender> {
    if events == [] then multiset{} else AllDropped(events[..|events| - 1]) + multiset(LastEffect(events).dropped)
  }

  /**
   Sender conservation over every run: what was submitted is what is pending,
   verifying, answered or dropped, counted with multiplicity.
   */
  lemma {:induction false} SenderConservation(events: seq<Event>)
    ensures AllSubmitted(events) == Held(After(events)) + AllAnswered(events) + AllDropped(events)
  {
    if events != [] {
      var n := |events| - 1;
      SenderConservation(events[..n]);
      var st, e := After(events[..n]), LastEffect(events);
      StepConserves(st, events[n]);
      Carried(AllSubmitted(events[..n]), Submitted(events[n]), Held(st), AllAnswered(events[..n]), AllDropped(events[..n]),
              Held(After(events)), multiset(Recipients(e.sent)), multiset(e.dropped));
    }
  }

  lemma Carried(all: multiset<Sender>, new': multiset<Sender>, held: multiset<Sender>, answered: multiset<Sender>,
                dropped: multiset<Sender>, held': multiset<Sender>, sent: multiset<Sender>, lost: multiset<Sender>)
    requires all == held + answered + dropped && held + new' == held' + sent + lost
    ensures all + new' == held' + (answered + sent) + (dropped + lost)
  {
    assert all + new' == held + new' + answered + dropped;
    assert held' + (answered + sent) + (dropped + lost) == held' + sent + lost + answered + dropped;
  }

  /** A sender submitted once is in exactly one place, and is answered at most once. */
  lemma OnePlace(events: seq<Event>, s: Sender)
    requires AllSubmitted(events)[s] == 1
    ensures var st := After(events);
      Total(st.pending, Bag)[s] + Total(st.verifying, Bag)[s] + AllAnswered(events)[s] + AllDropped(events)[s] == 1
  {
    SenderConservation(events);
    assert AllSubmitted(events)[s] == (Held(After(events)) + AllAnswered(events) + AllDropped(events))[s];
  }

  /** The submission reaches `verify_add_artifact`. */
  ghost predicate WellFormed(event: Event) {
    event.Submit? ==> event.log.Some? && event.log.value.operation.AddArtifact? && event.log.value.packageType.Some?
  }

  /** The submission completes the batch of its package. */
  ghost predicate Completes(st: State, event: Event)
    requires event.Submit? && WellFormed(event)
  {
    var l := event.log.value;
    |PendingOf(st, Package(l.packageType.value, l.packageSpecificId)) + [InfoOf(event)]| % U32_LIMIT == l.numArtifacts
  }

  /**
   The events that drop senders: a malformed submission, and one that completes
   a batch whose build does not start or starts under the id of a running one.
   */
  ghost predicate Drops(st: State, event: Event) {
    event.Submit? &&
    (!WellFormed(event) ||
     (Completes(st, event) &&
      (event.build.Err? || (event.build.value in st.verifying && st.verifying[event.build.value] != []))))
  }

  lemma SendersCount(infos: seq<Info>)
    ensures |Senders(infos)| == |infos|
    ensures infos == [] <==> Senders(infos) == []
  {
  }

  /** Exactly those events drop a sender, and exactly which ones they drop. */
  lemma DropsIff(st: State, event: Event)
    ensures var e := Apply(st, event).1;
      && (e.dropped != [] <==> Drops(st, event))
      && (Drops(st, event) ==>
            e.dropped ==
            if !WellFormed(event) then [event.sender]
            else if event.build.Err? then
              Senders(PendingOf(st, Package(event.log.value.packageType.value, event.log.value.packageSpecificId)) + [InfoOf(event)])
            else Senders(st.verifying[event.build.value]))
  {
    hide Senders, AnswersOf, FailuresOf;
    if event.Submit? && WellFormed(event) {
      var l := event.log.value;
      SendersCount(PendingOf(st, Package(l.packageType.value, l.packageSpecificId)) + [InfoOf(event)]);
      if event.build.Ok? && event.build.value in st.verifying {
        SendersCount(st.verifying[event.build.value]);
      }
    }
  }

  ghost predicate DropsAt(events: seq<Event>, i: nat)
    requires i < |events|
  {
    Drops(After(events[..i]), events[i])
  }

  lemma NothingAdded(held: multiset<Sender>, dropped: seq<Sender>)
    ensures held + multiset(dropped) == multiset{} <==> held == multiset{} && dropped == []
  {
    if dropped != [] {
      assert dropped[0] in held + multiset(dropped);
    }
    if s :| s in held {
      assert s in held + multiset(dropped);
    }
  }

  /** A run drops nothing if and only if none of its events is such an event. */
  lemma {:induction false} DroppedNothingIff(events: seq<Event>)
    ensures AllDropped(events) == multiset{} <==> forall i :: 0 <= i < |events| ==> !DropsAt(events, i)
  {
    if events != [] {
      var n := |events| - 1;
      var before := events[..n];
      DroppedNothingIff(before);
      DropsIff(After(before), events[n]);
      NothingAdded(AllDropped(before), LastEffect(events).dropped);
      forall i | 0 <= i < n ensures DropsAt(before, i) == DropsAt(events, i) {
        assert before[..i] == events[..i];
      }
      assert DropsAt(events, n) == Drops(After(before), events[n]);
      hide Apply, Drops, After, DropsAt;
    }
  }

  /** Well-formed submissions whose builds start under ids that name no running build. */
  ghost predicate Smooth(events: seq<Event>) {
    forall i :: 0 <= i < |events| && events[i].Submit? ==>
      WellFormed(events[i]) && events[i].build.Ok? && events[i].build.value !in After(events[..i]).verifying
  }

  /** Nothing is dropped in a smooth run. */
  lemma SmoothDropsNothing(events: seq<Event>)
    requires Smooth(events)
    ensures AllDropped(events) == multiset{}
  {
    assert forall i :: 0 <= i < |events| ==> !DropsAt(events, i);
    DroppedNothingIff(events);
  }

  // --------------------------------------------------------------- batch counting

  ghost predicate Concerns(event: Event, p: Package) {
    && event.Submit? && WellFormed(event)
    && Package(event.log.value.packageType.value, event.log.value.packageSpecificId) == p
  }

  function InfoOf(event: Event): Info
    requires event.Submit? && event.log.Some?
  {
    Info(event.sender, event.log.value.packageSpecificArtifactId, event.log.value.artifactHash)
  }

  /** The submissions for a package, in order. */
  ghost function Submissions(events: seq<Event>, p: Package): seq<Info> {
    if events == [] then []
    else
      var last := events[|events| - 1];
      Submissions(events[..|events| - 1], p) + if Concerns(last, p) then [InfoOf(last)] else []
  }

  /** The lists sent to builds of a package, in order. */
  ghost function Batches(events: seq<Event>, p: Package): seq<seq<Info>> {
    if events == [] then []
    else
      var started := LastEffect(events).started;
      Batches(events[..|events| - 1], p) +
      if started.Some? && started.value.package == p then [started.value.infos] else []
  }

  function Flatten(batches: seq<seq<Info>>): seq<Info> {
    if batches == [] then [] else batches[0] + Flatten(batches[1..])
  }

  /** The whole pieces of length `n`, from the front. */
  function Chunks(s: seq<Info>, n: nat): seq<seq<Info>>
    requires n > 0
    decreases |s|
  {
    if |s| < n then [] else [s[..n]] + Chunks(s[n..], n)
  }

  /** Every submission for `p` says `n` artifacts, and its build would start. */
  ghost predicate Uniform(events: seq<Event>, p: Package, n: nat) {
    && 1 <= n < U32_LIMIT
    && forall i :: 0 <= i < |events| && Concerns(events[i], p) ==>
         events[i].log.value.numArtifacts == n && events[i].build.Ok?
  }

  ghost predicate Grouped(events: seq<Event>, p: Package, n: nat) {
    && Flatten(Batches(events, p)) + PendingOf(After(events), p) == Submissions(events, p)
    && |PendingOf(After(events), p)| < n
    && forall b :: b in Batches(events, p) ==> |b| == n
  }

  lemma {:induction false} GroupedThroughout(events: seq<Event>, p: Package, n: nat)
    requires Uniform(events, p, n)
    ensures Grouped(events, p, n)
  {
    if events != [] {
      var m := |events| - 1;
      var before, last := events[..m], events[m];
      assert Uniform(before, p, n) by {
        forall i | 0 <= i < |before| && Concerns(before[i], p)
          ensures before[i].log.value.numArtifacts == n && before[i].build.Ok?
        {
          assert before[i] == events[i];
        }
      }
      GroupedThroughout(before, p, n);
      if Concerns(last, p) {
        GroupedStep(events, p, n);
      } else {
        OtherEventsKeep(After(before), last, p);
        assert Batches(before, p) + [] == Batches(before, p);
        assert Submissions(before, p) + [] == Submissions(before, p);
      }
    }
  }

  /** Events that do not concern a package leave its pending list alone and start no build of it. */
  lemma OtherEventsKeep(st: State, event: Event, p: Package)
    requires !Concerns(event, p)
    ensures var (st', e) := Apply(st, event);
      PendingOf(st', p) == PendingOf(st, p) && !(e.started.Some? && e.started.value.package == p)
  {
  }

  /** A submission to a list shorter than a batch: the list grows, or becomes the next batch. */
  lemma SubmitIs(st: State, event: Event, p: Package, n: nat)
    requires Concerns(event, p) && event.log.value.numArtifacts == n && event.build.Ok? && |PendingOf(st, p)| < n < U32_LIMIT
    ensures var (st', e) := Apply(st, event);
      var infos := PendingOf(st, p) + [InfoOf(event)];
      if |infos| == n then PendingOf(st', p) == [] && e.started == Some(Batch(p, event.build.value, infos))
      else PendingOf(st', p) == infos && e.started.None?
  {
  }

  /** What a submission adds to batches, pending list and submissions. */
  lemma SubmissionCounts(events: seq<Event>, p: Package, n: nat)
    requires events != [] && Uniform(events, p, n) && Concerns(events[|events| - 1], p)
    requires |PendingOf(After(events[..|events| - 1]), p)| < n
    ensures var before, info := events[..|events| - 1], InfoOf(events[|events| - 1]);
      var infos := PendingOf(After(before), p) + [info];
      && Submissions(events, p) == Submissions(before, p) + [info]
      && Batches(events, p) == Batches(before, p) + (if |infos| == n then [infos] else [])
      && PendingOf(After(events), p) == if |infos| == n then [] else infos
  {
    var m := |events| - 1;
    var st, last := After(events[..m]), events[m];
    assert last.log.value.numArtifacts == n && last.build.Ok?;
    SubmitIs(st, last, p, n);
    hide Apply, Concerns;
  }

  lemma GroupedStep(events: seq<Event>, p: Package, n: nat)
    requires events != [] && Uniform(events, p, n) && Concerns(events[|events| - 1], p)
    requires Grouped(events[..|events| - 1], p, n)
    ensures Grouped(events, p, n)
  {
    SubmissionCounts(events, p, n);
    hide Batches, Submissions, After, Concerns, Uniform;
    var before, info := events[..|events| - 1], InfoOf(events[|events| - 1]);
    var done, pending := Batches(before, p), PendingOf(After(before), p);
    hide PendingOf;
    if |pending + [info]| == n {
      WholeBatch(done, pending, info, n);
    } else {
      assert done + [] == done;
      LongerList(done, pending, info);
    }
  }

  lemma WholeBatch(done: seq<seq<Info>>, pending: seq<Info>, info: Info, n: nat)
    requires |pending + [info]| == n && forall b :: b in done ==> |b| == n
    ensures Flatten(done + [pending + [info]]) + [] == Flatten(done) + pending + [info]
    ensures forall b :: b in done + [pending + [info]] ==> |b| == n
  {
    FlattenAppend(done, pending + [info]);
    hide Flatten;
    assert Flatten(done) + (pending + [info]) == Flatten(done) + pending + [info];
  }

  lemma LongerList(done: seq<seq<Info>>, pending: seq<Info>, info: Info)
    ensures Flatten(done) + (pending + [info]) == Flatten(done) + pending + [info]
  {
    hide Flatten;
  }

  lemma {:induction false} FlattenAppend(batches: seq<seq<Info>>, b: seq<Info>)
    ensures Flatten(batches + [b]) == Flatten(batches) + b
  {
    if batches == [] {
      assert batches + [b] == [b] && [b][1..] == [];
    } else {
      assert (batches + [b])[1..] == batches[1..] + [b];
      FlattenAppend(batches[1..], b);
    }
  }

  lemma CutFirst(first: seq<Info>, others: seq<Info>, rest: seq<Info>)
    ensures var all := first + others + rest;
      all[..|first|] == first && all[|first|..] == others + rest
  {
  }

  lemma {:induction false} ChunksOfFlatten(batches: seq<seq<Info>>, rest: seq<Info>, n: nat)
    requires n > 0 && |rest| < n && forall b :: b in batches ==> |b| == n
    ensures Chunks(Flatten(batches) + rest, n) == batches
  {
    if batches == [] {
      assert Flatten(batches) + rest == rest;
    } else {
      assert batches[0] in batches && forall b :: b in batches[1..] ==> b in batches;
      ChunksOfFlatten(batches[1..], rest, n);
      FirstChunk(batches[0], Flatten(batches[1..]), rest, n);
      hide Chunks;
      assert [batches[0]] + batches[1..] == batches;
    }
  }

  lemma FirstChunk(first: seq<Info>, others: seq<Info>, rest: seq<Info>, n: nat)
    requires |first| == n > 0
    ensures Chunks(first + others + rest, n) == [first] + Chunks(others + rest, n)
  {
    CutFirst(first, others, rest);
  }

  lemma {:induction false} FlattenLength(batches: seq<seq<Info>>, n: nat)
    requires forall b :: b in batches ==> |b| == n
    ensures |Flatten(batches)| == |batches| * n
  {
    if batches != [] {
      assert batches[0] in batches && forall b :: b in batches[1..] ==> b in batches;
      FlattenLength(batches[1..], n);
      MulSuccessor(|batches[1..]|, n);
    }
  }

  lemma MulSuccessor(m: nat, n: nat)
    ensures (m + 1) * n == m * n + n
  {
  }

  /**
   Batch counting.  If all logs of a package say `n` artifacts and its builds
   start, then after `k` submissions exactly `k / n` builds were started, each
   with the next `n` submissions in order, and the last `k % n` are pending,
   whatever else happened in between.
   */
  lemma BatchCounting(events: seq<Event>, p: Package, n: nat)
    requires Uniform(events, p, n)
    ensures var k := |Submissions(events, p)|;
      && Batches(events, p) == Chunks(Submissions(events, p), n)
      && |Batches(events, p)| == k / n
      && |PendingOf(After(events), p)| == k % n
      && PendingOf(After(events), p) == Submissions(events, p)[k - k % n..]
  {
    hide Batches, Submissions, After;
    GroupedThroughout(events, p, n);
    var batches, pending := Batches(events, p), PendingOf(After(events), p);
    ChunksOfFlatten(batches, pending, n);
    FlattenLength(batches, n);
    DivMod(|batches|, n, |pending|);
  }

  lemma MulMonotone(a: nat, b: nat, n: nat)
    requires a <= b
    ensures a * n <= b * n
  {
  }

  lemma UniqueQuotient(n: nat, q: nat, r: nat, d: nat, m: nat)
    requires q * n + r == d * n + m && r < n && m < n
    ensures q == d && r == m
  {
    if q < d {
      MulSuccessor(q, n);
      MulMonotone(q + 1, d, n);
    } else if d < q {
      MulSuccessor(d, n);
      MulMonotone(d + 1, q, n);
    }
  }

  lemma DivMod(q: nat, n: nat, r: nat)
    requires r < n
    ensures (q * n + r) / n == q && (q * n + r) % n == r
  {
    var x := q * n + r;
    assert x == x / n * n + x % n;
    UniqueQuotient(n, q, r, x / n, x % n);
  }

  /** The submission of a log by a sender. */
  ghost predicate Asked(events: seq<Event>, log: Log, sender: Sender) {
    exists i :: 0 <= i < |events| && events[i].Submit? && events[i].log == Some(log) && events[i].sender == sender
  }

  /** The info stands for a submitted log: its sender, its artifact and its hash. */
  ghost predicate Stands(events: seq<Event>, info: Info) {
    exists log :: Asked(events, log, info.sender)
      && log.packageSpecificArtifactId == info.artifactSpecificId && log.artifactHash == info.artifactHash
  }

  lemma StandsGrows(events: seq<Event>, event: Event, info: Info)
    requires Stands(events, info)
    ensures Stands(events + [event], info)
  {
    var log :| Asked(events, log, info.sender)
      && log.packageSpecificArtifactId == info.artifactSpecificId && log.artifactHash == info.artifactHash;
    var i :| 0 <= i < |events| && events[i].Submit? && events[i].log == Some(log) && events[i].sender == info.sender;
    assert (events + [event])[i] == events[i];
    assert Asked(events + [event], log, info.sender);
  }

  /** Everything the service holds stands for a submitted log. */
  ghost predicate AllStand(events: seq<Event>, st: State) {
    && (forall p, k :: p in st.pending && 0 <= k < |st.pending[p]| ==> Stands(events, st.pending[p][k]))
    && (forall id, k :: id in st.verifying && 0 <= k < |st.verifying[id]| ==> Stands(events, st.verifying[id][k]))
  }

  lemma AllStandGrows(events: seq<Event>, event: Event, st: State)
    requires AllStand(events, st)
    ensures AllStand(events + [event], st)
  {
    forall p, k | p in st.pending && 0 <= k < |st.pending[p]| ensures Stands(events + [event], st.pending[p][k]) {
      StandsGrows(events, event, st.pending[p][k]);
    }
    forall id, k | id in st.verifying && 0 <= k < |st.verifying[id]| ensures Stands(events + [event], st.verifying[id][k]) {
      StandsGrows(events, event, st.verifying[id][k]);
    }
  }

  lemma SubmittedStands(events: seq<Event>, event: Event)
    requires event.Submit? && event.log.Some?
    ensures Stands(events + [event], InfoOf(event))
  {
    var more := events + [event];
    assert more[|events|] == event;
    assert Asked(more, event.log.value, event.sender);
  }

  lemma {:induction false} RunStands(events: seq<Event>)
    ensures AllStand(events, After(events))
  {
    if events != [] {
      var n := |events| - 1;
      var before, last := events[..n], events[n];
      assert before + [last] == events;
      RunStands(before);
      AllStandGrows(before, last, After(before));
      if last.Submit? && last.log.Some? {
        SubmittedStands(before, last);
      }
      hide Stands;
      StepStands(events, After(before), last);
    }
  }

  lemma StepStands(events: seq<Event>, st: State, event: Event)
    requires AllStand(events, st) && (event.Submit? && event.log.Some? ==> Stands(events, InfoOf(event)))
    ensures AllStand(events, Apply(st, event).0)
  {
    hide Stands;
  }

  /**
   Over every run: when a build ends, each of its senders had submitted a log,
   and hears `Verified` exactly if the first built artifact with that log's
   artifact id has that log's hash; otherwise what is wrong with it.
   */
  lemma RunAnswers(events: seq<Event>, id: string, artifacts: seq<BuildArtifact>, i: nat)
    requires id in After(events).verifying && i < |After(events).verifying[id]|
    ensures var sent := Apply(After(events), BuildResult(id, artifacts)).1.sent;
      && i < |sent|
      && exists log ::
           && Asked(events, log, sent[i].sender)
           && AnswersRightly(id, artifacts, Info(sent[i].sender, log.packageSpecificArtifactId, log.artifactHash), sent[i].answer)
  {
    RunStands(events);
    var st := After(events);
    var info := st.verifying[id][i];
    assert Stands(events, info);
    hide After, AnswersRightly;
    BuildEndAnswers(st, BuildResult(id, artifacts), id);
    var log :| Asked(events, log, info.sender)
      && log.packageSpecificArtifactId == info.artifactSpecificId && log.artifactHash == info.artifactHash;
    assert info == Info(info.sender, log.packageSpecificArtifactId, log.artifactHash);
  }

  /** Every list being verified was sent to a build as one batch of some package. */
  lemma {:induction false} VerifyingAreBatches(events: seq<Event>, id: string)
    requires id in After(events).verifying
    ensures exists p :: After(events).verifying[id] in Batches(events, p)
  {
    if events != [] {
      var m := |events| - 1;
      var before := events[..m];
      var started := LastEffect(events).started;
      if started.Some? && started.value.buildId == id {
        assert started.value.infos in Batches(events, started.value.package);
      } else {
        assert id in After(before).verifying && After(events).verifying[id] == After(before).verifying[id];
        VerifyingAreBatches(before, id);
        var p :| After(before).verifying[id] in Batches(before, p);
        assert After(events).verifying[id] in Batches(events, p);
      }
    }
  }
}

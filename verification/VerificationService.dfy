/** The object behind the verification state machine (src/verification_service/service.rs). */
module VerificationService {
  import opened Wrappers
  import opened TransparencyLog
  import opened LogService
  import opened Verification

  class VerificationService {
    var pendingInfo: map<Package, seq<Info>>
    var verifyingInfo: map<string, seq<Info>>

    function Current(): State
      reads this
    {
      State(pendingInfo, verifyingInfo)
    }

    constructor ()
      ensures Current() == After([])
    {
      pendingInfo, verifyingInfo := map[], map[];
    }

    /** `dropped` are the senders that go out of scope unanswered. */
    method VerifyTransaction(log: Option<Log>, sender: Sender, build: Result<string, string>)
      returns (reply: Reply, dropped: seq<Sender>)
      modifies this
      ensures var (st, e) := Apply(old(Current()), Submit(log, sender, build));
        Current() == st && reply == e.reply && dropped == e.dropped && e.sent == []
    {
      if log.None? {
        return Malformed, [sender];
      }
      var l := log.value;
      if !l.operation.AddArtifact? {
        return UnsupportedOperation(l.operation), [sender];
      }
      if l.packageType.None? {
        return Panicked, [sender];
      }
      reply, dropped := VerifyAddArtifact(Package(l.packageType.value, l.packageSpecificId),
        Info(sender, l.packageSpecificArtifactId, l.artifactHash), l.numArtifacts, build);
    }

    method VerifyAddArtifact(package: Package, info: Info, expected: nat, build: Result<string, string>)
      returns (reply: Reply, dropped: seq<Sender>)
      modifies this
      ensures var (st, e) := Verification.VerifyAddArtifact(old(Current()), package, info, expected, build);
        Current() == st && reply == e.reply && dropped == e.dropped && e.sent == []
    {
      var numArtifacts;
      if package in pendingInfo {
        pendingInfo := pendingInfo[package := pendingInfo[package] + [info]];
        numArtifacts := |pendingInfo[package]| % U32_LIMIT;
      } else {
        assert [] + [info] == [info];
        pendingInfo := pendingInfo[package := [info]];
        numArtifacts := 1;
      }
      dropped := [];
      if numArtifacts != expected {
        return Waiting, dropped;
      }
      var infos := pendingInfo[package];
      pendingInfo := pendingInfo - {package};
      assert pendingInfo == old(pendingInfo) - {package};
      match build {
        case Err(e) => return BuildNotStarted(e), Senders(infos);
        case Ok(id) =>
          if id in verifyingInfo {
            dropped := Senders(verifyingInfo[id]);
          }
          verifyingInfo := verifyingInfo[id := infos];
          return Building(id), dropped;
      }
    }

    method HandleBuildFailed(buildId: string, error: string) returns (sent: seq<Sent>)
      modifies this
      ensures var (st, e) := Apply(old(Current()), BuildFailed(buildId, error));
        Current() == st && sent == e.sent && e.dropped == []
    {
      sent := [];
      if buildId in verifyingInfo {
        var infos := verifyingInfo[buildId];
        verifyingInfo := verifyingInfo - {buildId};
        for i := 0 to |infos|
          invariant sent == FailuresOf(error, infos[..i])
        {
          assert infos[..i + 1][..i] == infos[..i];
          sent := sent + [Sent(infos[i].sender, VerifyBuildError(error))];
        }
        assert infos[..|infos|] == infos;
      }
    }

    method HandleBuildResult(buildId: string, artifacts: seq<BuildArtifact>) returns (sent: seq<Sent>)
      modifies this
      ensures var (st, e) := Apply(old(Current()), BuildResult(buildId, artifacts));
        Current() == st && sent == e.sent && e.dropped == []
    {
      sent := [];
      if buildId in verifyingInfo {
        var infos := verifyingInfo[buildId];
        verifyingInfo := verifyingInfo - {buildId};
        for i := 0 to |infos|
          invariant sent == AnswersOf(buildId, artifacts, infos[..i])
          invariant Current() == Apply(old(Current()), BuildResult(buildId, artifacts)).0
        {
          assert infos[..i + 1][..i] == infos[..i];
          var info := infos[i];
          var found := Find(artifacts, info.artifactSpecificId);
          if found.None? {
            sent := sent + [Sent(info.sender, Answer.ArtifactNotFound(buildId, info.artifactSpecificId))];
          } else if info.artifactHash == found.value.artifactHash {
            sent := sent + [Sent(info.sender, Verified)];
          } else {
            sent := sent + [Sent(info.sender,
              NonMatchingHash(buildId, info.artifactSpecificId, info.artifactHash, found.value.artifactHash))];
          }
        }
        assert infos[..|infos|] == infos;
      }
    }

    static method Find(artifacts: seq<BuildArtifact>, id: string) returns (r: Option<BuildArtifact>)
      ensures r == FindArtifact(artifacts, id)
      ensures r.Some? ==> exists i: nat :: FirstAt(artifacts, id, i) && artifacts[i] == r.value
    {
      for i := 0 to |artifacts|
        invariant forall j :: 0 <= j < i ==> artifacts[j].artifactSpecificId != id
      {
        if artifacts[i].artifactSpecificId == id {
          assert FirstAt(artifacts, id, i);
          return Some(artifacts[i]);
        }
      }
      r := None;
    }
  }
}

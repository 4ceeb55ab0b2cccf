/**
 From a build to a lookup: what a client's request returns after the build it
 led to was published.
 */
module Publication {
  import opened Wrappers
  import opened TransparencyLog
  import opened LogService
  import opened Identifiers
  import opened Strings

  // ------------------------------------------------------------ what a lookup returns

  /** Whatever ties do, the lookup returns an addition with the hash. */
  ghost predicate AlwaysFinds(t: Table, pt: PackageType, artifactId: string, hash: string) {
    forall r :: MayFind(LookupRows(t, pt, artifactId), r) ==> r.Ok? && r.value.artifactHash == hash
  }

  ghost predicate Good(row: Log, hash: string) {
    row.operation.AddArtifact? && row.artifactHash == hash
  }

  /** A removal or another hash, and no good row is earlier. */
  ghost predicate Preempts(rows: set<Log>, bad: Log, hash: string) {
    && bad in rows && !Good(bad, hash)
    && forall g :: g in rows && Good(g, hash) ==> bad.timestamp <= g.timestamp
  }

  lemma FindsIff(rows: set<Log>, hash: string)
    requires exists g :: g in rows && Good(g, hash)
    requires forall x :: x in rows ==> x.operation.AddArtifact? || x.operation.RemoveArtifact?
    ensures (forall r :: MayFind(rows, r) ==> r.Ok? && r.value.artifactHash == hash) <==>
            forall bad :: bad in rows ==> !Preempts(rows, bad, hash)
  {
    if forall r :: MayFind(rows, r) ==> r.Ok? && r.value.artifactHash == hash {
      forall bad | bad in rows ensures !Preempts(rows, bad, hash) {
        if Preempts(rows, bad, hash) {
          var first := BottomExists(rows);
          assert MayFind(rows, FoundAs(first));
          assert Good(first, hash);
          assert bad in Bottom(rows);
          assert MayFind(rows, FoundAs(bad));
        }
      }
    } else {
      var r :| MayFind(rows, r) && !(r.Ok? && r.value.artifactHash == hash);
      var row :| row in Bottom(rows) && r == FoundAs(row);
      assert Preempts(rows, row, hash);
    }
  }

  /** The rows of a publication under one artifact id. */
  ghost function OwnRows(rows: seq<Log>, pt: PackageType, artifactId: string): set<Log> {
    set r | r in rows && IsArtifactLog(r, pt, artifactId)
  }

  lemma RowsAfterPublication(t: Table, pt: PackageType, rows: seq<Log>, artifactId: string)
    requires Keyed(t) && FreshIds(t, rows)
    ensures LookupRows(WithRows(t, rows), pt, artifactId) == LookupRows(t, pt, artifactId) + OwnRows(rows, pt, artifactId)
  {
    RowsAfter(t, rows, |rows|);
    assert rows[..|rows|] == rows;
    hide WithRows;
  }

  /** No row under the id, old or of the same build, is a removal or has another hash without a good row before it. */
  ghost predicate Unpreempted(t: Table, rows: seq<Log>, pt: PackageType, artifactId: string, hash: string) {
    var all := LookupRows(t, pt, artifactId) + OwnRows(rows, pt, artifactId);
    forall bad :: bad in all ==> !Preempts(all, bad, hash)
  }

  /**
   The lookup after a publication, on every table: it returns the published
   hash whatever ties do, if and only if no row preempts it.
   */
  lemma PublishedLookupIff(t: Table, pt: PackageType, package: string, artifacts: seq<BuildArtifact>, stamps: seq<Fresh>,
                           a: BuildArtifact)
    requires |stamps| == |artifacts| && Keyed(t) && a in artifacts
    requires FreshIds(t, PublishedRows(pt, package, artifacts, stamps))
    ensures var rows := PublishedRows(pt, package, artifacts, stamps);
      AlwaysFinds(WithRows(t, rows), pt, a.artifactSpecificId, a.artifactHash) <==>
      Unpreempted(t, rows, pt, a.artifactSpecificId, a.artifactHash)
  {
    var rows, id := PublishedRows(pt, package, artifacts, stamps), a.artifactSpecificId;
    RowsAfterPublication(t, pt, rows, id);
    var all := LookupRows(t, pt, id) + OwnRows(rows, pt, id);
    var i :| 0 <= i < |artifacts| && artifacts[i] == a;
    assert rows[i] in rows && rows[i] in all && Good(rows[i], a.artifactHash);
    hide WithRows;
    FindsIff(all, a.artifactHash);
  }

  /** The input on which it fails: an older row with another hash hides the new one. */
  lemma OlderRowHidesNew(older: Log, pt: PackageType, package: string, a: BuildArtifact, f: Fresh)
    requires older.operation.AddArtifact? && IsArtifactLog(older, pt, a.artifactSpecificId)
    requires older.artifactHash != a.artifactHash && older.timestamp <= f.timestamp && older.id != f.id
    ensures !AlwaysFinds(WithRows(map[older.id := older], PublishedRows(pt, package, [a], [f])), pt,
                         a.artifactSpecificId, a.artifactHash)
  {
    var t, rows, id := map[older.id := older], PublishedRows(pt, package, [a], [f]), a.artifactSpecificId;
    PublishedLookupIff(t, pt, package, [a], [f], a);
    var all := LookupRows(t, pt, id) + OwnRows(rows, pt, id);
    assert t[older.id] == older;
    assert forall row :: row in all ==> row == older || row == rows[0];
    assert Preempts(all, older, a.artifactHash);
  }

  /**
   Two builds of one package that both passed the duplicate-build guard, here on
   a table without any row: once both are published, no lookup returns the
   second one's content if it differs.
   */
  lemma BothBuildsPass(pt: PackageType, package: string, a: BuildArtifact, f: Fresh, b: BuildArtifact, g: Fresh)
    requires a.artifactSpecificId == b.artifactSpecificId && a.artifactHash != b.artifactHash
    requires f.id != g.id && f.timestamp <= g.timestamp
    ensures MayGuard(map[], pt, package, true) && !MayGuard(map[], pt, package, false)
    ensures var first := WithRows(map[], PublishedRows(pt, package, [a], [f]));
      !AlwaysFinds(WithRows(first, PublishedRows(pt, package, [b], [g])), pt, b.artifactSpecificId, b.artifactHash)
  {
    GuardOutcomes(map[], pt, package);
    var rows := PublishedRows(pt, package, [a], [f]);
    assert rows[..0] == [];
    assert WithRows(map[], rows) == map[rows[0].id := rows[0]];
    OlderRowHidesNew(rows[0], pt, package, b, g);
  }

  // --------------------------------------------------------- where the rows come from

  /** The row was published for a download of a build of its package. */
  ghost predicate FromBuild(row: Log) {
    && row.operation.AddArtifact? && row.packageType.Some?
    && exists url :: row.packageSpecificArtifactId in PublishedIds(row.packageType.value, row.packageSpecificId, url, row.artifactHash)
  }

  ghost predicate AllFromBuilds(t: Table) {
    forall row :: row in t.Values && row.operation in {AddArtifact, RemoveArtifact} ==> FromBuild(row)
  }

  /** Every artifact has an id that its build publishes for some download with its hash. */
  ghost predicate Built(pt: PackageType, package: string, artifacts: seq<BuildArtifact>) {
    forall a :: a in artifacts ==> exists url :: a.artifactSpecificId in PublishedIds(pt, package, url, a.artifactHash)
  }

  lemma {:induction false} DownloadsAreBuilt(pt: PackageType, package: string, urls: seq<string>, downloads: seq<Download>)
    requires |urls| == |downloads| && PublishedAll(pt, package, urls, downloads).Some?
    ensures Built(pt, package, PublishedAll(pt, package, urls, downloads).value)
  {
    hide PublishedIds;
    if urls != [] {
      var n := |urls| - 1;
      DownloadsAreBuilt(pt, package, urls[..n], downloads[..n]);
      var done, hash := PublishedAll(pt, package, urls[..n], downloads[..n]).value, downloads[n].value;
      var ids := PublishedIds(pt, package, urls[n], hash);
      forall a | a in done + Labelled(ids, hash)
        ensures exists url :: a.artifactSpecificId in PublishedIds(pt, package, url, a.artifactHash)
      {
        if a in Labelled(ids, hash) {
          var i :| 0 <= i < |ids| && Labelled(ids, hash)[i] == a;
          assert a.artifactSpecificId in PublishedIds(pt, package, urls[n], a.artifactHash);
        }
      }
    }
  }

  /** Publishing a build keeps the origin of every row, at every moment of it. */
  lemma PublishingKeepsOrigin(t: Table, pt: PackageType, package: string, artifacts: seq<BuildArtifact>, stamps: seq<Fresh>, j: nat)
    requires AllFromBuilds(t) && Keyed(t) && Built(pt, package, artifacts)
    requires |stamps| == |artifacts| && j <= |artifacts| && FreshIds(t, PublishedRows(pt, package, artifacts, stamps))
    ensures AllFromBuilds(WithRows(t, PublishedRows(pt, package, artifacts, stamps)[..j]))
  {
    var rows := PublishedRows(pt, package, artifacts, stamps);
    RowsAfter(t, rows, j);
    forall row | row in rows[..j] ensures FromBuild(row) {
      var i :| 0 <= i < j && rows[..j][i] == row;
      NewRowFromBuild(pt, package, artifacts, i, stamps[i]);
    }
    hide WithRows, PublishedRows, FromBuild, Built;
  }

  lemma NewRowFromBuild(pt: PackageType, package: string, artifacts: seq<BuildArtifact>, i: nat, f: Fresh)
    requires Built(pt, package, artifacts) && i < |artifacts|
    ensures FromBuild(NewArtifactLog(pt, package, |artifacts|, artifacts[i], f))
  {
    hide PublishedIds;
    assert artifacts[i] in artifacts;
  }

  ghost predicate NoRemovals(t: Table) {
    forall row :: row in t.Values ==> !row.operation.RemoveArtifact?
  }

  /** While nothing is removed, the duplicate-build guard may pass exactly for packages without any row. */
  lemma GuardMeansFresh(t: Table, pt: PackageType, package: string)
    requires NoRemovals(t)
    ensures MayGuard(t, pt, package, true) <==> ArtifactRows(t, pt, package) == {}
  {
    GuardOutcomes(t, pt, package);
    assert Top(ArtifactRows(t, pt, package)) <= ArtifactRows(t, pt, package) <= t.Values;
  }

  /** One content for each id. */
  ghost predicate OneContent(artifacts: seq<BuildArtifact>) {
    forall a, b :: a in artifacts && b in artifacts && a.artifactSpecificId == b.artifactSpecificId ==>
      a.artifactHash == b.artifactHash
  }

  /** With one content for each id and only good old rows, nothing preempts. */
  lemma GoodOldRows(t: Table, pt: PackageType, package: string, artifacts: seq<BuildArtifact>, stamps: seq<Fresh>, a: BuildArtifact)
    requires |stamps| == |artifacts| && a in artifacts && OneContent(artifacts)
    requires forall row :: row in LookupRows(t, pt, a.artifactSpecificId) ==> Good(row, a.artifactHash)
    ensures Unpreempted(t, PublishedRows(pt, package, artifacts, stamps), pt, a.artifactSpecificId, a.artifactHash)
  {
    var rows := PublishedRows(pt, package, artifacts, stamps);
    forall row | row in OwnRows(rows, pt, a.artifactSpecificId) ensures Good(row, a.artifactHash) {
      var i :| 0 <= i < |rows| && rows[i] == row;
      assert artifacts[i] in artifacts;
    }
  }

  /** Every id published for a download is among the build's artifacts. */
  lemma {:induction false} EveryIdIsPublished(pt: PackageType, package: string, urls: seq<string>, downloads: seq<Download>,
                                              k: nat, id: string)
    requires |urls| == |downloads| && k < |urls| && PublishedAll(pt, package, urls, downloads).Some?
    ensures downloads[k].Some?
    ensures id in PublishedIds(pt, package, urls[k], downloads[k].value) ==>
      BuildArtifact(id, downloads[k].value) in PublishedAll(pt, package, urls, downloads).value
  {
    hide PublishedIds;
    var n := |urls| - 1;
    if k < n {
      EveryIdIsPublished(pt, package, urls[..n], downloads[..n], k, id);
    } else {
      var hash := downloads[n].value;
      var ids := PublishedIds(pt, package, urls[n], hash);
      if i :| 0 <= i < |ids| && ids[i] == id {
        assert Labelled(ids, hash)[i] == BuildArtifact(id, hash);
      }
    }
  }

  // ------------------------------------------------------------------------- Maven

  /** The rows under a requested artifact id are those of packages that collide with the requested one. */
  lemma MavenRowsCollide(t: Table, fullPath: string, row: Log)
    requires AllFromBuilds(t) && Parsed(Pieces(fullPath)).Ok? && Without(Pieces(fullPath)[..|Pieces(fullPath)| - 1], ':')
    requires row in LookupRows(t, Maven2, MavenArtifactId(Parsed(Pieces(fullPath)).value))
    ensures var package := PackageSpecificId(Parsed(Pieces(fullPath)).value);
      && row.operation.AddArtifact? && ShareIds(row.packageSpecificId, package)
      && ('/' !in row.packageSpecificId ==> row in ArtifactRows(t, Maven2, package))
  {
    var c := Parsed(Pieces(fullPath)).value;
    var package, id := PackageSpecificId(c), MavenArtifactId(c);
    assert FromBuild(row);
    var url :| id in PublishedIds(Maven2, row.packageSpecificId, url, row.artifactHash);
    FileNameHasNoSlash(fullPath);
    PackageHasNoSlash(fullPath);
    MavenAgreement(fullPath, c.fileName, "");
    hide Pieces;
    MavenIdsEqualIff(row.packageSpecificId, url, package, c.fileName, row.artifactHash, "");
    if '/' !in row.packageSpecificId {
      NoCollision(row.packageSpecificId, package);
    }
  }

  /** No row of a package that collides with this one. */
  ghost predicate NoContender(t: Table, package: string) {
    forall row :: row in t.Values && row.operation.AddArtifact? && row.packageType == Some(Maven2) ==>
      !ShareIds(row.packageSpecificId, package)
  }

  /**
   Maven, from a request to a lookup, on every table the build is published to:
   every lookup of the requested artifact returns the row with the hash of its
   download, if and only if no row under its id preempts it.  Nothing does if no
   colliding package has a row and the build gives one content for each id.
   */
  lemma MavenRequestFoundIff(fullPath: string, urls: seq<string>, downloads: seq<Download>, k: nat,
                             artifacts: seq<BuildArtifact>, t: Table, stamps: seq<Fresh>)
    requires Parsed(Pieces(fullPath)).Ok? && Without(Pieces(fullPath)[..|Pieces(fullPath)| - 1], ':')
    requires |urls| == |downloads| && k < |urls| && EndsInFile(urls[k], Parsed(Pieces(fullPath)).value.fileName)
    requires PublishedAll(Maven2, PackageSpecificId(Parsed(Pieces(fullPath)).value), urls, downloads) == Some(artifacts)
    requires |stamps| == |artifacts| && Keyed(t)
    requires FreshIds(t, PublishedRows(Maven2, PackageSpecificId(Parsed(Pieces(fullPath)).value), artifacts, stamps))
    ensures var c := Parsed(Pieces(fullPath)).value;
      var rows := PublishedRows(Maven2, PackageSpecificId(c), artifacts, stamps);
      && downloads[k].Some?
      && (AlwaysFinds(WithRows(t, rows), Maven2, MavenArtifactId(c), downloads[k].value) <==>
            Unpreempted(t, rows, Maven2, MavenArtifactId(c), downloads[k].value))
      && (AllFromBuilds(t) && NoContender(t, PackageSpecificId(c)) && OneContent(artifacts) ==>
            Unpreempted(t, rows, Maven2, MavenArtifactId(c), downloads[k].value))
  {
    hide PublishedIds, PublishedAll, PublishedRows, Pieces, WithRows, AlwaysFinds, FreshIds, Unpreempted;
    var c := Parsed(Pieces(fullPath)).value;
    var package, id := PackageSpecificId(c), MavenArtifactId(c);
    EveryIdIsPublished(Maven2, package, urls, downloads, k, id);
    MavenAgreement(fullPath, urls[k], downloads[k].value);
    PublishedLookupIff(t, Maven2, package, artifacts, stamps, BuildArtifact(id, downloads[k].value));
    if AllFromBuilds(t) && NoContender(t, package) && OneContent(artifacts) {
      NoOldRows(t, fullPath);
      GoodOldRows(t, Maven2, package, artifacts, stamps, BuildArtifact(id, downloads[k].value));
    }
  }

  lemma NoOldRows(t: Table, fullPath: string)
    requires AllFromBuilds(t) && Parsed(Pieces(fullPath)).Ok? && Without(Pieces(fullPath)[..|Pieces(fullPath)| - 1], ':')
    requires NoContender(t, PackageSpecificId(Parsed(Pieces(fullPath)).value))
    ensures LookupRows(t, Maven2, MavenArtifactId(Parsed(Pieces(fullPath)).value)) == {}
  {
    var id := MavenArtifactId(Parsed(Pieces(fullPath)).value);
    if LookupRows(t, Maven2, id) != {} {
      var row :| row in LookupRows(t, Maven2, id);
      MavenRowsCollide(t, fullPath, row);
    }
  }

  // ------------------------------------------------------------------------ Docker

  /** The rows under the id of a package requested by tag are its own: every other published id holds an '@'. */
  lemma TagRowsAreOwn(t: Table, package: string)
    requires AllFromBuilds(t) && '@' !in package
    ensures LookupRows(t, Docker, package) <= ArtifactRows(t, Docker, package)
  {
    forall row | row in LookupRows(t, Docker, package) ensures row in ArtifactRows(t, Docker, package) {
      assert FromBuild(row);
      var url :| package in PublishedIds(Docker, row.packageSpecificId, url, row.artifactHash);
      NamesHoldAt(row.packageSpecificId, url, row.artifactHash, package);
    }
  }

  lemma NamesHoldAt(package: string, url: string, hash: string, id: string)
    requires id in PublishedIds(Docker, package, url, hash) && '@' !in id
    ensures id == package
  {
    hide DockerImageName, BeforeLast, LastSegment;
    var image, blob := DockerImageName(package), BeforeLast(LastSegment(url), '.');
    assert (image + "@sha256:" + hash)[|image|] == '@';
    assert (image + "@" + blob)[|image|] == '@';
  }

  /** The row names a manifest that a build by tag published under its digest. */
  ghost predicate ByTag(row: Log) {
    '@' !in row.artifactHash && row.packageSpecificArtifactId == DockerImageName(row.packageSpecificId) + "@sha256:" + row.artifactHash
  }

  /** Two ids by digest are equal only if the digests are. */
  lemma DigestDetermines(image: string, hash: string, other: string, hash': string)
    requires '@' !in hash && '@' !in hash' && image + "@sha256:" + hash == other + "@sha256:" + hash'
    ensures hash == hash'
  {
    hide RFind;
    var d, d' := "sha256:" + hash, "sha256:" + hash';
    AtDigest(image, hash);
    AtDigest(other, hash');
    SameParts(image, d, other, d', '@');
    assert d[7..] == hash && d'[7..] == hash';
  }

  lemma AtDigest(image: string, hash: string)
    requires '@' !in hash
    ensures image + "@sha256:" + hash == image + ['@'] + ("sha256:" + hash)
    ensures RFind(image + ['@'] + ("sha256:" + hash), '@') == Some(|image|)
  {
    hide RFind;
    Regroup(image, hash);
    var digest := "sha256:" + hash;
    NoAtInDigest(hash);
    RFindAppend(image, '@', digest);
  }

  lemma Regroup(image: string, hash: string)
    ensures image + "@sha256:" + hash == image + ['@'] + ("sha256:" + hash)
  {
    assert "@sha256:" == ['@'] + "sha256:";
  }

  lemma NoAtInDigest(hash: string)
    requires '@' !in hash
    ensures '@' !in "sha256:" + hash
  {
  }

  /** Every old row under the digest came from a tag or has the content the digest names. */
  ghost predicate DigestHonoured(t: Table, byDigest: string, hash: string) {
    forall row :: row in LookupRows(t, Docker, byDigest) ==> ByTag(row) || row.artifactHash == hash
  }

  /**
   Docker, from a request for `name` at `tag` to a lookup, on every table the
   build is published to: every lookup of the manifest by tag, and every one by
   digest, returns the row with the hash of its download, if and only if no row
   under that id preempts it.  Nothing does, by tag if the package has no row,
   by digest if the old rows honour it, for a build with one content for each id.
   */
  lemma ManifestFoundIff(name: string, tag: string, urls: seq<string>, downloads: seq<Download>, k: nat,
                         artifacts: seq<BuildArtifact>, t: Table, stamps: seq<Fresh>, hash: string)
    requires '@' !in name && '@' !in tag && ':' !in tag && ('/' in name || '/' !in tag)
    requires |urls| == |downloads| && k < |urls| && EndsWith(urls[k], "/manifest")
    requires downloads[k] == Some(hash) && '/' !in hash && '@' !in hash
    requires PublishedAll(Docker, ManifestId(name, tag), urls, downloads) == Some(artifacts)
    requires |stamps| == |artifacts| && Keyed(t)
    requires FreshIds(t, PublishedRows(Docker, ManifestId(name, tag), artifacts, stamps))
    ensures var rows := PublishedRows(Docker, ManifestId(name, tag), artifacts, stamps);
      var byTag, byDigest := ManifestId(name, tag), ManifestId(name, "sha256:" + hash);
      && (AlwaysFinds(WithRows(t, rows), Docker, byTag, hash) <==> Unpreempted(t, rows, Docker, byTag, hash))
      && (AlwaysFinds(WithRows(t, rows), Docker, byDigest, hash) <==> Unpreempted(t, rows, Docker, byDigest, hash))
      && (AllFromBuilds(t) && OneContent(artifacts) && ArtifactRows(t, Docker, byTag) == {} ==>
            Unpreempted(t, rows, Docker, byTag, hash))
      && (AllFromBuilds(t) && OneContent(artifacts) && DigestHonoured(t, byDigest, hash) ==>
            Unpreempted(t, rows, Docker, byDigest, hash))
  {
    hide PublishedIds, PublishedAll, PublishedRows, ManifestId, WithRows, AlwaysFinds, FreshIds, EndsWith, Unpreempted;
    var package, byDigest := ManifestId(name, tag), ManifestId(name, "sha256:" + hash);
    EveryIdIsPublished(Docker, package, urls, downloads, k, package);
    EveryIdIsPublished(Docker, package, urls, downloads, k, byDigest);
    ManifestAgreement(name, tag, urls[k], hash);
    assert PublishedIds(Docker, package, urls[k], hash) == [package, byDigest];
    PublishedLookupIff(t, Docker, package, artifacts, stamps, BuildArtifact(package, hash));
    PublishedLookupIff(t, Docker, package, artifacts, stamps, BuildArtifact(byDigest, hash));
    if AllFromBuilds(t) && OneContent(artifacts) && ArtifactRows(t, Docker, package) == {} {
      TagHasNoAt(name, tag);
      TagRowsAreOwn(t, package);
      GoodOldRows(t, Docker, package, artifacts, stamps, BuildArtifact(package, hash));
    }
    if AllFromBuilds(t) && OneContent(artifacts) && DigestHonoured(t, byDigest, hash) {
      OldDigestsAgree(t, name, hash);
      GoodOldRows(t, Docker, package, artifacts, stamps, BuildArtifact(byDigest, hash));
    }
  }

  lemma TagHasNoAt(name: string, tag: string)
    requires '@' !in name && '@' !in tag && ':' !in tag
    ensures '@' !in ManifestId(name, tag)
  {
    if |tag| > 6 {
      assert tag[6] in tag;
    }
    InBase(name, tag);
  }

  lemma OldDigestsAgree(t: Table, name: string, hash: string)
    requires AllFromBuilds(t) && '/' !in hash && '@' !in hash
    requires DigestHonoured(t, ManifestId(name, "sha256:" + hash), hash)
    ensures forall row :: row in LookupRows(t, Docker, ManifestId(name, "sha256:" + hash)) ==> Good(row, hash)
  {
    DigestId(name, hash);
    hide ManifestId, DockerImageName, Qualified;
    forall row | row in LookupRows(t, Docker, ManifestId(name, "sha256:" + hash)) ensures Good(row, hash) {
      assert FromBuild(row);
      if ByTag(row) {
        DigestDetermines(DockerImageName(row.packageSpecificId), row.artifactHash, Qualified(name), hash);
      }
    }
  }
}

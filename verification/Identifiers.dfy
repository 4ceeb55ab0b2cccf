/**
 Package identifiers: what a client request looks up, what a build publishes
 and where the build mapping is fetched from.
 */
module Identifiers {
  import opened Wrappers
  import opened Strings
  import T = TransparencyLog
  import A = LogService

  datatype Coordinates = Coordinates(groupId: string, version: string, artifactId: string, fileName: string)

  datatype PathError = InvalidFullPath

  // ---------------------------------------------------------------- Maven requests

  /** The path pieces after "" and "maven2". */
  function Pieces(fullPath: string): seq<string> {
    var all := Split(fullPath, '/');
    if |all| < 2 then [] else all[2..]
  }

  function Parsed(pieces: seq<string>): Result<Coordinates, PathError> {
    var n := |pieces|;
    if n < 4 then Err(InvalidFullPath)
    else Ok(Coordinates(Join(pieces[..n - 3], '.'), pieces[n - 2], pieces[n - 3], pieces[n - 1]))
  }

  method ParseArtifactFromFullPath(fullPath: string) returns (r: Result<Coordinates, PathError>)
    ensures r == Parsed(Pieces(fullPath))
  {
    var pieces := Pieces(fullPath);
    ghost var all := pieces;
    if |pieces| < 4 {
      return Err(InvalidFullPath);
    }
    var fileName := pieces[|pieces| - 1];
    pieces := pieces[..|pieces| - 1];
    var version := pieces[|pieces| - 1];
    pieces := pieces[..|pieces| - 1];
    var artifactId := pieces[|pieces| - 1];
    pieces := pieces[..|pieces| - 1];
    assert pieces == all[..|all| - 3];
    r := Ok(Coordinates(Join(pieces, '.'), version, artifactId, fileName));
  }

  /** The package a Maven request is about. */
  function PackageSpecificId(c: Coordinates): string {
    c.groupId + ":" + c.artifactId + ":" + c.version
  }

  /** The artifact a Maven request looks up. */
  function MavenArtifactId(c: Coordinates): string {
    c.groupId + "/" + c.artifactId + "/" + c.version + "/" + c.fileName
  }

  // --------------------------------------------------------------- Docker requests

  function Qualified(combined: string): string {
    if '/' in combined then combined else "library/" + combined
  }

  /** The manifest a Docker request looks up, by tag or by digest. */
  function ManifestId(name: string, tag: string): string {
    Qualified(if StartsWith(tag, "sha256:") then name + "@" + tag else name + ":" + tag)
  }

  /** The blob a Docker request looks up. */
  function BlobId(name: string, digest: string): string {
    Qualified(name + "@" + digest)
  }

  // ------------------------------------------------------------ published artifacts

  function LastSegment(url: string): string {
    match RFind(url, '/')
    case Some(k) => url[k + 1..]
    case None => url
  }

  function DockerImageName(packageId: string): string {
    if '@' in packageId then BeforeLast(packageId, '@') else BeforeLast(packageId, ':')
  }

  /** The ids under which a build publishes one downloaded artifact. */
  function PublishedIds(packageType: T.PackageType, packageId: string, url: string, hash: string): seq<string> {
    match packageType
    case Docker =>
      if EndsWith(url, "/manifest") then
        if '@' in packageId then [packageId]
        else [packageId, DockerImageName(packageId) + "@sha256:" + hash]
      else
        [DockerImageName(packageId) + "@" + BeforeLast(LastSegment(url), '.')]
    case Maven2 => [Replace(packageId, ':', '/') + "/" + LastSegment(url)]
  }

  function Labelled(ids: seq<string>, hash: string): seq<A.BuildArtifact> {
    seq(|ids|, i requires 0 <= i < |ids| => A.BuildArtifact(ids[i], hash))
  }

  /** A download yields the hash of the stored content, or fails. */
  type Download = Option<string>

  /** Everything published for a list of URLs, or None when a download fails. */
  function PublishedAll(packageType: T.PackageType, packageId: string, urls: seq<string>, downloads: seq<Download>)
      : Option<seq<A.BuildArtifact>>
    requires |urls| == |downloads|
  {
    if urls == [] then Some([])
    else
      var n := |urls| - 1;
      match (PublishedAll(packageType, packageId, urls[..n], downloads[..n]), downloads[n])
      case (Some(done), Some(hash)) => Some(done + Labelled(PublishedIds(packageType, packageId, urls[n], hash), hash))
      case _ => None
  }

  lemma {:induction false} FailureStays(packageType: T.PackageType, packageId: string, urls: seq<string>,
                                        downloads: seq<Download>, k: nat)
    requires |urls| == |downloads| && k <= |urls|
    requires PublishedAll(packageType, packageId, urls[..k], downloads[..k]).None?
    ensures PublishedAll(packageType, packageId, urls, downloads).None?
  {
    hide PublishedIds, Labelled;
    var n := |urls| - 1;
    if k == |urls| {
      assert urls[..k] == urls && downloads[..k] == downloads;
    } else {
      assert urls[..n][..k] == urls[..k] && downloads[..n][..k] == downloads[..k];
      FailureStays(packageType, packageId, urls[..n], downloads[..n], k);
    }
  }

  /** The artifacts of two lists of URLs are those of the first and then those of the second, and one failed download spoils all. */
  lemma {:induction false} PublishedInOrder(packageType: T.PackageType, packageId: string, urls: seq<string>, downloads: seq<Download>,
                                            urls': seq<string>, downloads': seq<Download>)
    requires |urls| == |downloads| && |urls'| == |downloads'|
    ensures var a, b := PublishedAll(packageType, packageId, urls, downloads), PublishedAll(packageType, packageId, urls', downloads');
      PublishedAll(packageType, packageId, urls + urls', downloads + downloads') ==
      if a.Some? && b.Some? then Some(a.value + b.value) else None
    decreases |urls'|
  {
    hide PublishedIds, Labelled;
    if urls' == [] {
      assert urls + urls' == urls && downloads + downloads' == downloads;
      var a := PublishedAll(packageType, packageId, urls, downloads);
      assert PublishedAll(packageType, packageId, urls', downloads') == Some([]);
      if a.Some? {
        assert a.value + [] == a.value;
      }
    } else {
      var n, all, got := |urls'| - 1, urls + urls', downloads + downloads';
      assert all[..|all| - 1] == urls + urls'[..n] && got[..|all| - 1] == downloads + downloads'[..n];
      PublishedInOrder(packageType, packageId, urls, downloads, urls'[..n], downloads'[..n]);
      var a := PublishedAll(packageType, packageId, urls, downloads);
      var b := PublishedAll(packageType, packageId, urls'[..n], downloads'[..n]);
      assert all[|all| - 1] == urls'[n] && got[|all| - 1] == downloads'[n];
      if a.Some? && b.Some? && downloads'[n].Some? {
        var hash := downloads'[n].value;
        var last := Labelled(PublishedIds(packageType, packageId, urls'[n], hash), hash);
        assert a.value + b.value + last == a.value + (b.value + last);
      }
    }
  }

  /** One download is published under the ids of its URL, each with its hash. */
  lemma PublishedAlone(packageType: T.PackageType, packageId: string, url: string, download: Download)
    ensures var r := PublishedAll(packageType, packageId, [url], [download]);
      && (r.Some? <==> download.Some?)
      && (r.Some? ==>
            var ids := PublishedIds(packageType, packageId, url, download.value);
            |r.value| == |ids| && forall i :: 0 <= i < |ids| ==> r.value[i] == A.BuildArtifact(ids[i], download.value))
  {
    hide PublishedIds;
    assert [url][..0] == [] && [download][..0] == [];
    assert PublishedAll(packageType, packageId, [], []) == Some([]);
  }

  method ProcessArtifactUrls(packageType: T.PackageType, packageId: string, urls: seq<string>, downloads: seq<Download>)
    returns (r: Option<seq<A.BuildArtifact>>)
    requires |urls| == |downloads|
    ensures r == PublishedAll(packageType, packageId, urls, downloads)
  {
    hide PublishedIds, Labelled;
    var artifacts: seq<A.BuildArtifact> := [];
    for i := 0 to |urls|
      invariant PublishedAll(packageType, packageId, urls[..i], downloads[..i]) == Some(artifacts)
    {
      assert urls[..i + 1][..i] == urls[..i] && downloads[..i + 1][..i] == downloads[..i];
      if downloads[i].None? {
        FailureStays(packageType, packageId, urls, downloads, i + 1);
        return None;
      }
      var hash := downloads[i].value;
      var ids := PublishedIds(packageType, packageId, urls[i], hash);
      artifacts := artifacts + Labelled(ids, hash);
    }
    assert urls[..|urls|] == urls && downloads[..|urls|] == downloads;
    r := Some(artifacts);
  }

  // ------------------------------------------------------------------ the mapping URL

  /** The directory of the mapping URL, or None where indexing the pieces fails. */
  function MappingDirectory(packageId: string): Option<string> {
    var pieces := Split(packageId, ':');
    if |pieces| < 3 then None
    else Some(Replace(pieces[0], '.', '/') + "/" + pieces[1] + "/" + pieces[2])
  }

  // ------------------------------------------------------------------ Maven theorems

  /** No piece holds the character. */
  predicate Without(pieces: seq<string>, c: char) {
    forall i :: 0 <= i < |pieces| ==> c !in pieces[i]
  }

  /** A path gives its pieces back. */
  lemma PathPieces(pieces: seq<string>)
    requires pieces != [] && Without(pieces, '/')
    ensures Pieces("/maven2/" + Join(pieces, '/')) == pieces
  {
    var all := ["", "maven2"] + pieces;
    assert all[1..] == ["maven2"] + pieces && all[1..][1..] == pieces;
    assert Join(all, '/') == "" + ['/'] + ("maven2" + ['/'] + Join(pieces, '/'));
    assert Join(all, '/') == "/maven2/" + Join(pieces, '/');
    SplitJoin(all, '/');
    assert all[2..] == pieces;
  }

  /** A Maven path is read back exactly, whatever the pieces are. */
  lemma PathRoundTrip(dirs: seq<string>, artifact: string, version: string, file: string)
    requires dirs != [] && Without(dirs + [artifact, version, file], '/')
    ensures var path := "/maven2/" + Join(dirs + [artifact, version, file], '/');
      Parsed(Pieces(path)) == Ok(Coordinates(Join(dirs, '.'), version, artifact, file))
  {
    var pieces := dirs + [artifact, version, file];
    PathPieces(pieces);
    assert pieces[..|pieces| - 3] == dirs;
  }

  /** A path with fewer pieces is refused. */
  lemma ShortPathIsRefused(pieces: seq<string>)
    requires pieces != [] && Without(pieces, '/') && |pieces| < 4
    ensures Parsed(Pieces("/maven2/" + Join(pieces, '/'))) == Err(InvalidFullPath)
  {
    PathPieces(pieces);
  }

  /** A package with fewer than two ':' has no mapping directory: taking its pieces fails. */
  lemma MappingNeedsColons(p: string, q: string)
    requires ':' !in p && ':' !in q
    ensures MappingDirectory(p).None? && MappingDirectory(p + ":" + q).None?
  {
    SplitPiece(p, ':');
    SplitPiece(q, ':');
    SplitAppend(p, ':', q);
  }

  /** The URL is the file name, or ends in it after a slash. */
  predicate EndsInFile(url: string, file: string) {
    url == file || EndsWith(url, "/" + file)
  }

  lemma LastSegmentIs(url: string, file: string)
    requires '/' !in file && EndsInFile(url, file)
    ensures LastSegment(url) == file
  {
    if url != file {
      var base := url[..|url| - |file| - 1];
      assert url == base + "/" + file;
      RFindAppend(base, '/', file);
      hide RFind;
    }
  }

  lemma LastSegmentHasNoSlash(url: string)
    ensures '/' !in LastSegment(url)
  {
    hide RFind;
  }

  lemma FileNameHasNoSlash(fullPath: string)
    requires Parsed(Pieces(fullPath)).Ok?
    ensures '/' !in Parsed(Pieces(fullPath)).value.fileName
    ensures forall i :: 0 <= i < |Pieces(fullPath)| ==> '/' !in Pieces(fullPath)[i]
  {
    SplitPiece(fullPath, '/');
  }

  /**
   Maven agreement: a build of the requested package publishes the requested
   artifact under the id that was requested, exactly when no directory of the
   path holds a ':'.
   */
  lemma MavenAgreement(fullPath: string, url: string, hash: string)
    requires Parsed(Pieces(fullPath)).Ok?
    requires EndsInFile(url, Parsed(Pieces(fullPath)).value.fileName)
    ensures var c := Parsed(Pieces(fullPath)).value;
      PublishedIds(T.Maven2, PackageSpecificId(c), url, hash) == [MavenArtifactId(c)] <==>
      Without(Pieces(fullPath)[..|Pieces(fullPath)| - 1], ':')
  {
    var pieces := Pieces(fullPath);
    var n, c := |pieces|, Parsed(pieces).value;
    FileNameHasNoSlash(fullPath);
    hide Pieces;
    LastSegmentIs(url, c.fileName);
    ReplacedCoordinates(c);
    JoinMember(pieces[..n - 3], '.', ':');
    ColonFree(pieces);
    var prefix := Replace(PackageSpecificId(c), ':', '/');
    var requested := c.groupId + "/" + c.artifactId + "/" + c.version;
    assert MavenArtifactId(c) == requested + ['/'] + c.fileName;
    SameParts(prefix, LastSegment(url), requested, c.fileName, '/');
  }

  /** The build service cannot tell the two packages apart by the ids it publishes. */
  predicate ShareIds(p: string, q: string) {
    Replace(p, ':', '/') == Replace(q, ':', '/')
  }

  /** Two packages publish one id for two files exactly if the files have one name and the packages collide. */
  lemma MavenIdsEqualIff(p: string, url: string, q: string, url': string, hash: string, hash': string)
    ensures PublishedIds(T.Maven2, p, url, hash) == PublishedIds(T.Maven2, q, url', hash') <==>
            ShareIds(p, q) && LastSegment(url) == LastSegment(url')
  {
    var f, g := LastSegment(url), LastSegment(url');
    LastSegmentHasNoSlash(url);
    LastSegmentHasNoSlash(url');
    RFindAppend(Replace(p, ':', '/'), '/', f);
    RFindAppend(Replace(q, ':', '/'), '/', g);
    hide RFind, LastSegment;
    if Replace(p, ':', '/') + "/" + f == Replace(q, ':', '/') + "/" + g {
      SameParts(Replace(p, ':', '/'), f, Replace(q, ':', '/'), g, '/');
    }
  }

  /** Among packages without '/' none collide. */
  lemma NoCollision(p: string, q: string)
    requires '/' !in p && '/' !in q
    ensures ShareIds(p, q) <==> p == q
  {
    if ShareIds(p, q) {
      forall i | 0 <= i < |p| ensures p[i] == q[i] {
        assert Replace(p, ':', '/')[i] == Replace(q, ':', '/')[i];
        assert p[i] in p && q[i] in q;
      }
    }
  }

  /** But a package with '/' can be asked for by name, and collides. */
  lemma SlashCollides(hash: string)
    ensures PublishedIds(T.Maven2, "g/a:1", "f", hash) == PublishedIds(T.Maven2, "g:a:1", "f", hash)
  {
    assert Replace("g/a:1", ':', '/') == "g/a/1" == Replace("g:a:1", ':', '/');
    MavenIdsEqualIff("g/a:1", "f", "g:a:1", "f", hash, hash);
  }

  /** The package of a request never holds a '/'. */
  lemma PackageHasNoSlash(fullPath: string)
    requires Parsed(Pieces(fullPath)).Ok?
    ensures '/' !in PackageSpecificId(Parsed(Pieces(fullPath)).value)
  {
    FileNameHasNoSlash(fullPath);
    var pieces := Pieces(fullPath);
    JoinMember(pieces[..|pieces| - 3], '.', '/');
  }

  lemma ColonFree(pieces: seq<string>)
    requires |pieces| >= 4
    ensures var n := |pieces|;
      Without(pieces[..n - 1], ':') <==>
      Without(pieces[..n - 3], ':') && ':' !in pieces[n - 3] && ':' !in pieces[n - 2]
  {
    var n := |pieces|;
    assert pieces[..n - 1] == pieces[..n - 3] + [pieces[n - 3], pieces[n - 2]];
  }

  lemma ReplacedCoordinates(c: Coordinates)
    ensures Replace(PackageSpecificId(c), ':', '/') == c.groupId + "/" + c.artifactId + "/" + c.version <==>
            ':' !in c.groupId && ':' !in c.artifactId && ':' !in c.version
  {
    var g, a, v := c.groupId, c.artifactId, c.version;
    ReplaceAppend(g + ":" + a + ":", v, ':', '/');
    ReplaceAppend(g + ":" + a, ":", ':', '/');
    ReplaceAppend(g + ":", a, ':', '/');
    ReplaceAppend(g, ":", ':', '/');
    assert Replace(":", ':', '/') == "/";
    SameParts(Replace(g, ':', '/') + "/" + Replace(a, ':', '/'), Replace(v, ':', '/'), g + "/" + a, v, '/');
    SameParts(Replace(g, ':', '/'), Replace(a, ':', '/'), g, a, '/');
    ReplaceFixed(g, ':', '/');
    ReplaceFixed(a, ':', '/');
    ReplaceFixed(v, ':', '/');
  }

  /**
   Mapping agreement: the mapping is fetched from the requested directory
   exactly when no directory of the path holds a ':' and no group directory
   holds a '.'.
   */
  lemma MappingAgreement(fullPath: string)
    requires Parsed(Pieces(fullPath)).Ok?
    ensures var pieces := Pieces(fullPath);
      MappingDirectory(PackageSpecificId(Parsed(pieces).value)) == Some(Join(pieces[..|pieces| - 1], '/')) <==>
      Without(pieces[..|pieces| - 1], ':') && Without(pieces[..|pieces| - 3], '.')
  {
    var pieces := Pieces(fullPath);
    var n, c := |pieces|, Parsed(pieces).value;
    var dirs := pieces[..n - 3];
    ColonFree(pieces);
    JoinMember(dirs, '.', ':');
    SplitCoordinates(c);
    ReplaceJoin(dirs, '.', '/');
    assert pieces[..n - 1] == dirs + [c.artifactId, c.version];
    JoinAppend(dirs, [c.artifactId, c.version], '/');
    assert Join([c.artifactId, c.version], '/') == c.artifactId + ['/'] + c.version;
    var wanted := Join(pieces[..n - 1], '/');
    assert wanted == Join(dirs, '/') + ['/'] + (c.artifactId + ['/'] + c.version);
    var split := Split(PackageSpecificId(c), ':');
    if |split| == 3 {
      var mapped := Replace(c.groupId, '.', '/') + "/" + c.artifactId + "/" + c.version;
      assert mapped == Replace(c.groupId, '.', '/') + ['/'] + (c.artifactId + ['/'] + c.version);
      SameParts(Replace(c.groupId, '.', '/'), c.artifactId + ['/'] + c.version, Join(dirs, '/'),
                c.artifactId + ['/'] + c.version, '/');
    } else {
      FirstThreeShorter(PackageSpecificId(c), ':');
    }
  }

  /** The package id splits into its three parts exactly when none holds a ':'. */
  lemma SplitCoordinates(c: Coordinates)
    ensures |Split(PackageSpecificId(c), ':')| >= 3
    ensures |Split(PackageSpecificId(c), ':')| == 3 <==>
            ':' !in c.groupId && ':' !in c.artifactId && ':' !in c.version
    ensures |Split(PackageSpecificId(c), ':')| == 3 ==>
            Split(PackageSpecificId(c), ':') == [c.groupId, c.artifactId, c.version]
  {
    hide Split;
    SplitAppend(c.groupId + ":" + c.artifactId, ':', c.version);
    SplitAppend(c.groupId, ':', c.artifactId);
    SplitPiece(c.groupId, ':');
    SplitPiece(c.artifactId, ':');
    SplitPiece(c.version, ':');
  }

  ghost function Length(pieces: seq<string>): nat {
    if pieces == [] then 0 else |pieces[0]| + 1 + Length(pieces[1..])
  }

  lemma {:induction false} SplitLength(s: string, c: char)
    ensures Length(Split(s, c)) == |s| + 1
  {
    if s != "" {
      SplitLength(s[1..], c);
      var rest := Split(s[1..], c);
      if s[0] == c {
        assert Split(s, c)[1..] == rest;
      } else {
        assert Split(s, c)[1..] == rest[1..];
      }
    }
  }

  /** When there are more than three pieces the first three are not the whole text. */
  lemma FirstThreeShorter(s: string, c: char)
    requires |Split(s, c)| > 3
    ensures var p := Split(s, c); |p[0]| + 1 + |p[1]| + 1 + |p[2]| < |s|
  {
    SplitLength(s, c);
    hide Split;
    var p := Split(s, c);
    assert p[1..][1..] == p[2..] && p[2..][1..] == p[3..];
    assert Length(p[2..]) == |p[2]| + 1 + Length(p[3..]);
    assert Length(p[1..]) == |p[1]| + 1 + Length(p[2..]);
    assert Length(p[3..]) > 0;
  }

  // ----------------------------------------------------------------- Docker theorems

  /** Requests for `name` at `tag` lead back to `name`. */
  predicate TagLeadsToName(name: string, tag: string) {
    && ('/' in name || '/' !in tag)
    && (if StartsWith(tag, "sha256:") then '@' !in tag else '@' !in name && '@' !in tag && ':' !in tag)
  }

  /** Text after the name, cut at some point, never turns the bare name into the library name. */
  lemma NeverLibrary(name: string, sep: char, rest: string)
    requires '/' !in name && (sep == '@' || sep == ':')
    ensures name + [sep] + rest != "library/" + name
  {
    var a, b := name + [sep] + rest, "library/" + name;
    if |name| > 7 {
      assert a[7] == name[7] && b[7] == '/';
    } else {
      assert a[|name|] == sep && b[|name|] == "library/"[|name|];
    }
  }

  /** The prefix `ManifestId` puts before the name. */
  function Prefix(name: string, tag: string): string {
    if '/' in name || '/' in tag then "" else "library/"
  }

  function Separator(tag: string): char {
    if StartsWith(tag, "sha256:") then '@' else ':'
  }

  lemma ManifestIdParts(name: string, tag: string)
    ensures ManifestId(name, tag) == Prefix(name, tag) + name + [Separator(tag)] + tag
  {
    var combined := name + [Separator(tag)] + tag;
    assert ManifestId(name, tag) == Qualified(combined);
    assert '/' in combined <==> '/' in name || '/' in tag;
    assert "" + combined == combined;
  }

  lemma PrefixIsRight(name: string, tag: string)
    ensures Prefix(name, tag) + name == Qualified(name) <==> '/' in name || '/' !in tag
    ensures |Prefix(name, tag) + name| <= |Qualified(name)|
  {
  }

  lemma LongerIsWrong(name: string, tag: string, sep: char, rest: string)
    requires sep == '@' || sep == ':'
    ensures Prefix(name, tag) + name + [sep] + rest != Qualified(name)
  {
    if '/' !in name && '/' in tag {
      NeverLibrary(name, sep, rest);
      assert Prefix(name, tag) + name + [sep] + rest == name + [sep] + rest;
    }
  }

  /** The image name read off a manifest id is the qualified name exactly when the tag leads back to it. */
  lemma ImageNameIff(name: string, tag: string)
    ensures DockerImageName(ManifestId(name, tag)) == Qualified(name) <==> TagLeadsToName(name, tag)
  {
    var base, sep, id := Prefix(name, tag) + name, Separator(tag), ManifestId(name, tag);
    ManifestIdParts(name, tag);
    PrefixIsRight(name, tag);
    InBase(name, tag);
    hide BeforeLast, Qualified, ManifestId;
    if sep == '@' {
      assert '@' in id by { assert id[|base|] == '@'; }
      BeforeLastAppend(base, '@', tag);
      LongerIsWrong(name, tag, '@', BeforeLast(tag, '@'));
    } else if '@' in tag {
      BeforeLastRight(base + [sep], tag, '@');
      LongerIsWrong(name, tag, ':', BeforeLast(tag, '@'));
    } else if '@' in name {
      assert id == base + ([sep] + tag);
      BeforeLastShorter(base, [sep] + tag, '@');
    } else {
      BeforeLastAppend(base, ':', tag);
      LongerIsWrong(name, tag, ':', BeforeLast(tag, ':'));
    }
  }

  lemma InBase(name: string, tag: string)
    ensures '@' in Prefix(name, tag) + name <==> '@' in name
    ensures '@' in ManifestId(name, tag) <==> '@' in name || '@' in tag || Separator(tag) == '@'
  {
    ManifestIdParts(name, tag);
    assert '@' !in Prefix(name, tag);
  }

  /** A manifest downloaded for `name` at `tag` is published as the two ids later requested by tag and by digest. */
  predicate ManifestFound(name: string, tag: string, url: string, hash: string) {
    PublishedIds(T.Docker, ManifestId(name, tag), url, hash) == [ManifestId(name, tag), ManifestId(name, "sha256:" + hash)]
  }

  /**
   Docker manifest agreement.  Hashes are hexadecimal, so they hold no '/'.
   */
  lemma ManifestAgreement(name: string, tag: string, url: string, hash: string)
    requires EndsWith(url, "/manifest") && '/' !in hash
    ensures ManifestFound(name, tag, url, hash) <==>
            '@' !in name && '@' !in tag && ':' !in tag && ('/' in name || '/' !in tag)
  {
    DigestId(name, hash);
    assert StartsWith(tag, "sha256:") ==> tag[6] == ':';
    InBase(name, tag);
    ImageNameIff(name, tag);
    hide Qualified, ManifestId, DockerImageName, EndsWith, StartsWith;
    SameTail(DockerImageName(ManifestId(name, tag)), Qualified(name), "@sha256:", hash);
  }

  lemma DigestId(name: string, hash: string)
    requires '/' !in hash
    ensures ManifestId(name, "sha256:" + hash) == Qualified(name) + "@sha256:" + hash
  {
    hide Qualified;
    var digest := "sha256:" + hash;
    DigestHasNoSlash(hash);
    assert ManifestId(name, digest) == BlobId(name, digest);
    BlobIdParts(name, digest);
    hide *;
    Regrouped(Qualified(name), hash);
  }

  lemma DigestHasNoSlash(hash: string)
    requires '/' !in hash
    ensures '/' !in "sha256:" + hash && StartsWith("sha256:" + hash, "sha256:")
  {
  }

  lemma Regrouped(image: string, hash: string)
    ensures image + "@" + ("sha256:" + hash) == image + "@sha256:" + hash
  {
    assert "@" + "sha256:" == "@sha256:";
  }

  lemma BlobIdParts(name: string, digest: string)
    requires '/' !in digest
    ensures BlobId(name, digest) == Qualified(name) + "@" + digest
  {
    assert '/' in name + "@" + digest <==> '/' in name;
  }

  lemma SameTail(a: string, b: string, t: string, u: string)
    ensures a + t + u == b + t + u <==> a == b
  {
    if a + t + u == b + t + u {
      assert |a| == |b|;
      assert a == (a + t + u)[..|a|] && b == (b + t + u)[..|b|];
    }
  }

  /** Docker blob agreement: a blob file `<digest>.<extension>` is published as the id later requested for it. */
  lemma BlobAgreement(name: string, tag: string, url: string, digest: string, extension: string, hash: string)
    requires '/' !in digest && '.' !in extension
    requires LastSegment(url) == digest + "." + extension && !EndsWith(url, "/manifest")
    ensures PublishedIds(T.Docker, ManifestId(name, tag), url, hash) == [BlobId(name, digest)] <==>
            TagLeadsToName(name, tag)
  {
    BeforeLastAppend(digest, '.', extension);
    BlobIdParts(name, digest);
    ImageNameIff(name, tag);
    hide Qualified, ManifestId, DockerImageName, BeforeLast, BlobId, LastSegment, EndsWith, TagLeadsToName;
    SameTail(DockerImageName(ManifestId(name, tag)), Qualified(name), "@", digest);
  }

  /** A manifest of a package requested by digest is published under that request alone. */
  lemma ManifestByDigest(name: string, digest: string, url: string, hash: string)
    requires StartsWith(digest, "sha256:") && EndsWith(url, "/manifest")
    ensures PublishedIds(T.Docker, ManifestId(name, digest), url, hash) == [ManifestId(name, digest)]
  {
    InBase(name, digest);
  }

  /** A package without a tag or a digest is its own image. */
  lemma BareImageName(package: string)
    requires '@' !in package && ':' !in package
    ensures DockerImageName(package) == package
  {
  }
}

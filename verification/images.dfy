/** Extraction of the image name shown for each container. */
module Images {
  import opened Strings
  import Seqs
  import opened Cluster

  /** Separates the repository from a digest (`repo@sha256:...`). */
  const DigestMark: char := '@'

  /** Separates registry host and path segments. */
  const PathMark: char := '/'

  /** The last `/`-segment of the text before the first `@`; a `:tag` is kept. */
  function ImageName(image: string): (name: string)
    ensures PathMark !in name && DigestMark !in name
    ensures |name| <= |image|
  {
    var repository := Split(image, DigestMark)[0];
    var segments := Split(repository, PathMark);
    FirstPiece(image, DigestMark);
    LastPiece(repository, PathMark);
    var name := segments[|segments| - 1];
    assert name == repository[|repository| - |name|..];
    assert forall k :: 0 <= k < |name| ==> name[k] == repository[|repository| - |name| + k];
    name
  }

  /** `i` is where the repository part of `image` ends: at its first `@`, or at its end. */
  ghost predicate RepositoryEnd(image: string, i: int) {
    0 <= i <= |image| && DigestMark !in image[..i] && (i == |image| || image[i] == DigestMark)
  }

  /** `j` is where the last path segment of `image[..i]` starts: just after its last `/`, or at 0. */
  ghost predicate SegmentStart(image: string, i: int, j: int) {
    0 <= j <= i <= |image| && PathMark !in image[j..i] && (j == 0 || image[j - 1] == PathMark)
  }

  /** Reference definition: `name` is the text after the last `/` in the part of `image`
      before its first `@`. */
  ghost predicate IsImageName(image: string, name: string) {
    exists i, j :: RepositoryEnd(image, i) && SegmentStart(image, i, j) && name == image[j..i]
  }

  lemma RepositoryEndUnique(image: string, i1: int, i2: int)
    requires RepositoryEnd(image, i1) && RepositoryEnd(image, i2)
    ensures i1 == i2
  {
  }

  lemma SegmentStartUnique(image: string, i: int, j1: int, j2: int)
    requires SegmentStart(image, i, j1) && SegmentStart(image, i, j2)
    ensures j1 == j2
  {
  }

  /** `ImageName` computes exactly the reference definition: it satisfies it, and nothing else does. */
  lemma ImageNameCharacterized(image: string, name: string)
    ensures IsImageName(image, name) <==> name == ImageName(image)
  {
    var repository := Split(image, DigestMark)[0];
    var segments := Split(repository, PathMark);
    FirstPiece(image, DigestMark);
    LastPiece(repository, PathMark);
    var i := |repository|;
    var j := i - |segments[|segments| - 1]|;
    assert image[..i] == repository;
    assert image[j..i] == repository[j..];
    assert j > 0 ==> image[j - 1] == repository[j - 1];
    assert RepositoryEnd(image, i) && SegmentStart(image, i, j);
    if IsImageName(image, name) {
      var i', j' :| RepositoryEnd(image, i') && SegmentStart(image, i', j') && name == image[j'..i'];
      RepositoryEndUnique(image, i, i');
      SegmentStartUnique(image, i, j, j');
    }
  }

  /** A reference with neither `/` nor `@` is its own name. */
  lemma ImageNameOfBareName(image: string)
    requires PathMark !in image && DigestMark !in image
    ensures ImageName(image) == image
  {
    SplitWithoutSeparator(image, DigestMark);
    SplitWithoutSeparator(image, PathMark);
  }

  /** Extracting from an already extracted name changes nothing. */
  lemma ImageNameIdempotent(image: string)
    ensures ImageName(ImageName(image)) == ImageName(image)
  {
    ImageNameOfBareName(ImageName(image));
  }

  /** For `host/team/app@digest`, registry host, path and digest are dropped. */
  lemma ImageNameOfQualifiedReference(image: string, host: string, team: string, app: string, digest: string)
    requires PathMark !in host && PathMark !in team && PathMark !in app
    requires DigestMark !in host && DigestMark !in team && DigestMark !in app
    requires image == host + [PathMark] + team + [PathMark] + app + [DigestMark] + digest
    ensures ImageName(image) == app
  {
    var repository := host + [PathMark] + team + [PathMark] + app;
    assert [host, team, app][1..] == [team, app];
    assert [team, app][1..] == [app];
    assert Join([team, app], PathMark) == team + [PathMark] + app;
    assert Join([host, team, app], PathMark) == host + [PathMark] + (team + [PathMark] + app);
    assert Join([host, team, app], PathMark) == repository;
    SplitJoin([host, team, app], PathMark);
    SplitAtSeparator(repository, digest, DigestMark);
    assert image == repository + [DigestMark] + digest;
  }

  /** A digest-qualified reference with a registry host and a path. */
  lemma ImageNameDropsRegistryAndDigest()
    ensures ImageName("registry.example.com/team/app@sha256:abcd") == "app"
  {
    ImageNameOfQualifiedReference("registry.example.com/team/app@sha256:abcd",
                                  "registry.example.com", "team", "app", "sha256:abcd");
  }

  /** A `:tag` is not stripped, and a bare name is kept as it is. */
  lemma ImageNameKeepsTag()
    ensures ImageName("app:v1.2") == "app:v1.2"
    ensures ImageName("app") == "app"
  {
    ImageNameOfBareName("app:v1.2");
    ImageNameOfBareName("app");
  }

  /** The empty image and an image ending in `/` both yield the empty name. */
  lemma ImageNameEmptyCases()
    ensures ImageName("") == ""
    ensures ImageName("x/") == ""
  {
    SplitWithoutSeparator("x/", DigestMark);
    assert "x/" == Join(["x", ""], PathMark);
    SplitJoin(["x", ""], PathMark);
  }

  /** One name per container, in container order (Go's `GetContainersImage`). */
  function GetContainersImage(containers: seq<Container>): (images: seq<string>)
    ensures |images| == |containers|
    ensures forall k :: 0 <= k < |containers| ==> IsImageName(containers[k].image, images[k])
    ensures forall k :: 0 <= k < |images| ==> PathMark !in images[k] && DigestMark !in images[k]
  {
    var images := Seqs.Map((c: Container) => ImageName(c.image), containers);
    assert forall k :: 0 <= k < |containers| ==> IsImageName(containers[k].image, images[k]) by {
      forall k | 0 <= k < |containers|
        ensures IsImageName(containers[k].image, images[k])
      {
        ImageNameCharacterized(containers[k].image, images[k]);
      }
    }
    images
  }
}

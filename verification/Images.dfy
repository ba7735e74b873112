/**
 Container image references: splitting them into registry, name and tag, and the two ways in
 which the scanner compares a running sidecar image with the expected one.
 */
module Images {
  import opened Prelude

  datatype ParsedImage = ParsedImage(registry: string, imageName: string, tag: string)

  function WithoutDigest(image: string): string {
    var i := IndexOf(image, '@');
    if i >= 0 then image[..i] else image
  }

  /** The part before the last colon, and the tag behind it, `latest` without a colon. */
  function SplitTag(image: string): (string, string) {
    var colon := LastIndexOf(image, ':');
    if colon >= 0 then (image[..colon], image[colon + 1..]) else (image, "latest")
  }

  /** The registry before the last slash, empty without one, and the name behind it. */
  function SplitRegistry(path: string): (string, string) {
    var slash := LastIndexOf(path, '/');
    if slash >= 0 then (path[..slash], path[slash + 1..]) else ("", path)
  }

  function ParseImage(image: string): ParsedImage {
    var (path, tag) := SplitTag(WithoutDigest(image));
    var (registry, name) := SplitRegistry(path);
    ParsedImage(registry, name, tag)
  }

  /** Full string equality when the hub counts, else only image name and tag. */
  predicate ImagesMatch(current: string, expected: string, compareHub: bool) {
    if compareHub then current == expected
    else
      var cp, ep := ParseImage(current), ParseImage(expected);
      cp.imageName == ep.imageName && cp.tag == ep.tag
  }

  function PrintPath(registry: string, name: string): string {
    if registry == "" then name else registry + "/" + name
  }

  /** The way a reference is written: `registry/name:tag`, or `name:tag` without a registry. */
  function PrintImage(p: ParsedImage): string {
    PrintPath(p.registry, p.imageName) + ":" + p.tag
  }

  /** Parts that a parse can return. */
  predicate Canonical(p: ParsedImage) {
    && '@' !in p.registry && '@' !in p.imageName && '@' !in p.tag
    && '/' !in p.imageName && ':' !in p.tag
  }

  predicate IsDigest(d: string) {
    d == "" || d[0] == '@'
  }

  // ---- splitting at a separator is unambiguous

  lemma SameEndSameStart(x: string, y: string, tag: string)
    ensures x + ":" + tag == y + ":" + tag <==> x == y
  {
    if x + ":" + tag == y + ":" + tag {
      assert |x| == |y|;
      assert x == (x + ":" + tag)[..|x|] == y;
    }
  }

  lemma SplitTagOfPrinted(path: string, tag: string)
    requires ':' !in tag
    ensures SplitTag(path + ":" + tag) == (path, tag)
  {
    var s := path + [':'] + tag;
    LastIndexOfSplit(path, ':', tag);
    assert s[..|path|] == path && s[|path| + 1..] == tag;
  }

  lemma SplitRegistryOfPrinted(registry: string, name: string)
    requires '/' !in name
    ensures SplitRegistry(PrintPath(registry, name)) == (registry, name)
  {
    if registry != "" {
      var s := registry + ['/'] + name;
      LastIndexOfSplit(registry, '/', name);
      assert s[..|registry|] == registry && s[|registry| + 1..] == name;
    }
  }

  /** What is printed back of a path is the path, unless its only slash is its first character. */
  lemma PrintSplitPath(path: string)
    ensures var (registry, name) := SplitRegistry(path);
            PrintPath(registry, name) == path <==> LastIndexOf(path, '/') != 0
  {
    var slash := LastIndexOf(path, '/');
    if slash >= 0 {
      assert path == path[..slash] + "/" + path[slash + 1..];
    }
  }

  lemma DigestIsDropped(image: string, digest: string)
    requires '@' !in image && IsDigest(digest)
    ensures WithoutDigest(image + digest) == image
  {
    if digest == "" {
      assert image + digest == image;
    } else {
      assert image + digest == image + ['@'] + digest[1..];
      FirstIndexOfSplit(image, '@', digest[1..]);
    }
  }

  lemma ParseUndoesPrint(p: ParsedImage, digest: string)
    requires Canonical(p) && IsDigest(digest)
    ensures ParseImage(PrintImage(p) + digest) == p
  {
    DigestIsDropped(PrintImage(p), digest);
    SplitTagOfPrinted(PrintPath(p.registry, p.imageName), p.tag);
    SplitRegistryOfPrinted(p.registry, p.imageName);
  }

  lemma SplitTagIsClean(image: string)
    ensures ':' !in SplitTag(image).1
    ensures '@' !in image ==> '@' !in SplitTag(image).0 && '@' !in SplitTag(image).1
    ensures ':' in image ==> image == SplitTag(image).0 + ":" + SplitTag(image).1
  {
    var colon := LastIndexOf(image, ':');
    if colon >= 0 {
      assert image == image[..colon] + ":" + image[colon + 1..];
    }
  }

  lemma SplitRegistryIsClean(path: string)
    ensures '/' !in SplitRegistry(path).1
    ensures '@' !in path ==> '@' !in SplitRegistry(path).0 && '@' !in SplitRegistry(path).1
  {
  }

  lemma ParseIsCanonical(image: string)
    ensures Canonical(ParseImage(image))
  {
    var bare := WithoutDigest(image);
    assert '@' !in bare;
    SplitTagIsClean(bare);
    SplitRegistryIsClean(SplitTag(bare).0);
  }

  /**
   Parsing undoes printing, with or without a digest, exactly for canonical parts: no `@`
   anywhere, no `/` in the name, no `:` in the tag. A registry may carry a port.
   */
  lemma ParsePrintRoundTrip(p: ParsedImage, digest: string)
    requires IsDigest(digest)
    ensures ParseImage(PrintImage(p) + digest) == p <==> Canonical(p)
  {
    if Canonical(p) {
      ParseUndoesPrint(p, digest);
    }
    ParseIsCanonical(PrintImage(p) + digest);
  }

  /** The path before the tag has its only slash in front: an empty registry, spelled out. */
  predicate SpellsEmptyRegistry(image: string) {
    LastIndexOf(SplitTag(image).0, '/') == 0
  }

  /**
   Printing what was parsed gives the reference back exactly when it has a tag colon, has no
   digest, and does not spell an empty registry with a leading slash.
   */
  lemma PrintParseRoundTrip(image: string)
    ensures PrintImage(ParseImage(image)) == image
       <==> '@' !in image && ':' in image && !SpellsEmptyRegistry(image)
  {
    var p := ParseImage(image);
    ParseIsCanonical(image);
    if '@' in image {
      assert '@' !in PrintImage(p);
    } else if ':' !in image {
      assert ':' in PrintImage(p);
    } else {
      PrintParseTagged(image);
    }
  }

  lemma PrintParseTagged(image: string)
    requires '@' !in image && ':' in image
    ensures PrintImage(ParseImage(image)) == image <==> !SpellsEmptyRegistry(image)
  {
    var path, tag := SplitTag(image).0, SplitTag(image).1;
    var printed := PrintPath(SplitRegistry(path).0, SplitRegistry(path).1);
    assert PrintImage(ParseImage(image)) == printed + ":" + tag;
    assert image == path + ":" + tag by { SplitTagIsClean(image); }
    assert printed == path <==> !SpellsEmptyRegistry(image) by { PrintSplitPath(path); }
    SameEndSameStart(printed, path, tag);
  }

  /** A parse is a normal form: printing and parsing it again changes nothing. */
  lemma ParseNormalises(image: string, digest: string)
    requires IsDigest(digest)
    ensures ParseImage(PrintImage(ParseImage(image)) + digest) == ParseImage(image)
  {
    ParseIsCanonical(image);
    ParseUndoesPrint(ParseImage(image), digest);
  }

  /** An untagged reference to a registry with a port: everything behind the port colon is its tag. */
  lemma PortIsReadAsTag(host: string, port: string, name: string)
    requires '@' !in host && '@' !in port && '@' !in name && ':' !in port && ':' !in name && '/' !in host
    ensures ParseImage(host + ":" + port + "/" + name) == ParsedImage("", host, port + "/" + name)
  {
    var p := ParsedImage("", host, port + "/" + name);
    assert host + ":" + port + "/" + name == PrintImage(p);
    assert PrintImage(p) + "" == PrintImage(p);
    ParseUndoesPrint(p, "");
  }

  /** An untagged reference is the one with tag `latest`, with any digests. */
  lemma UntaggedIsLatest(image: string, d: string, e: string)
    requires '@' !in image && ':' !in image && IsDigest(d) && IsDigest(e)
    ensures ParseImage(image + d) == ParseImage(image + ":" + "latest" + e)
    ensures ParseImage(image + d).tag == "latest"
  {
    DigestIsDropped(image, d);
    DigestIsDropped(image + ":" + "latest", e);
    SplitTagOfPrinted(image, "latest");
  }

  lemma {:induction false} SameStartSameEnd(x: string, y: string, z: string)
    ensures x + y == x + z <==> y == z
  {
    if x + y == x + z {
      assert y == (x + y)[|x|..] == (x + z)[|x|..] == z;
    }
  }

  /** Where the digest starts, a reference and its digest part. */
  lemma SameReferenceSameDigest(image: string, other: string, d: string, e: string)
    requires '@' !in image && '@' !in other && IsDigest(d) && IsDigest(e)
    ensures image + d == other + e <==> image == other && d == e
  {
    DigestIsDropped(image, d);
    DigestIsDropped(other, e);
    SameStartSameEnd(image, d, e);
  }

  /** When the hub counts, two printed references match exactly when registries, names, tags and digests agree. */
  lemma HubAwareMatch(p: ParsedImage, q: ParsedImage, d: string, e: string)
    requires Canonical(p) && Canonical(q) && IsDigest(d) && IsDigest(e)
    ensures ImagesMatch(PrintImage(p) + d, PrintImage(q) + e, true) <==> p == q && d == e
  {
    ParseUndoesPrint(p, "");
    ParseUndoesPrint(q, "");
    assert PrintImage(p) + "" == PrintImage(p) && PrintImage(q) + "" == PrintImage(q);
    SameReferenceSameDigest(PrintImage(p), PrintImage(q), d, e);
  }

  /** Comparing the hub is equality, and only sharpens the comparison without it. */
  lemma HubComparisonSharpens(current: string, expected: string)
    ensures ImagesMatch(current, expected, true) <==> current == expected
    ensures ImagesMatch(current, expected, true) ==> ImagesMatch(current, expected, false)
  {
  }

  /** Two references that differ only in digests always match when the hub is ignored. */
  lemma DigestsNeverDiffer(image: string, d: string, e: string)
    requires '@' !in image && IsDigest(d) && IsDigest(e)
    ensures ImagesMatch(image + d, image + e, false)
  {
    DigestIsDropped(image, d);
    DigestIsDropped(image, e);
  }

  /** Ignoring the hub, two printed references match exactly when their names and tags do. */
  lemma HubBlindMatch(p: ParsedImage, q: ParsedImage, d: string, e: string)
    requires Canonical(p) && Canonical(q) && IsDigest(d) && IsDigest(e)
    ensures ImagesMatch(PrintImage(p) + d, PrintImage(q) + e, false)
       <==> p.imageName == q.imageName && p.tag == q.tag
  {
    ParseUndoesPrint(p, d);
    ParseUndoesPrint(q, e);
  }
}

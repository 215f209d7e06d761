/** `extractRepoInfo`: owner and repository name from a GitHub URL.

    Parsing the URL string itself (the WHATWG `new URL`) is a library call and
    is taken as given: the input is `None` when the parse throws, and
    `Some((hostname, pathname))` otherwise.
 */
module RepoUrl {
  import opened Wrappers
  import opened Strings

  datatype RepoInfo = RepoInfo(owner: string, repo: string)

  const GitHubHost := "github.com"

  /** The non-empty segments of a URL path, split at each "/". */
  function PathSegments(pathname: string): (segments: seq<string>)
    ensures forall i :: 0 <= i < |segments| ==> segments[i] != "" && '/' !in segments[i]
  {
    var parts := Split(pathname, '/');
    var r := NonEmpty(parts);
    assert forall i :: 0 <= i < |r| ==> r[i] in parts;
    r
  }

  function ExtractRepoInfo(parsed: Option<(string, string)>): (r: Option<RepoInfo>)
    ensures r.Some? <==>
      parsed.Some? && parsed.value.0 == GitHubHost && |PathSegments(parsed.value.1)| >= 2
    ensures r.Some? ==>
      var segments := PathSegments(parsed.value.1);
      r.value.owner == segments[0] && r.value.repo == segments[1]
    ensures r.Some? ==>
      r.value.owner != "" && r.value.repo != "" && '/' !in r.value.owner && '/' !in r.value.repo
  {
    match parsed
    case None => None
    case Some((hostname, pathname)) =>
      if hostname != GitHubHost then None
      else
        var segments := PathSegments(pathname);
        if |segments| < 2 then None
        else Some(RepoInfo(segments[0], segments[1]))
  }

  /** Every `https://github.com/{owner}/{repo}` URL, with or without further
      path segments, yields exactly that owner and repository. */
  lemma ExtractFromRepoPath(owner: string, repo: string, rest: string)
    requires owner != "" && repo != "" && '/' !in owner && '/' !in repo
    requires rest == "" || rest[0] == '/'
    ensures ExtractRepoInfo(Some((GitHubHost, "/" + owner + "/" + repo + rest)))
            == Some(RepoInfo(owner, repo))
  {
    var path := "/" + owner + "/" + repo + rest;
    SplitNoSeparator(owner, '/');
    if rest == "" {
      SplitNoSeparator(repo, '/');
      assert path == "" + ['/'] + (owner + ['/'] + repo);
      SplitAround("", '/', owner + ['/'] + repo);
      SplitAround(owner, '/', repo);
      assert Split(path, '/') == [""] + [owner] + [repo];
      NonEmptyAppend([""], [owner] + [repo]);
      NonEmptyAppend([owner], [repo]);
    } else {
      var tail := rest[1..];
      assert rest == ['/'] + tail;
      assert path == "" + ['/'] + (owner + ['/'] + (repo + ['/'] + tail));
      SplitAround("", '/', owner + ['/'] + (repo + ['/'] + tail));
      SplitAround(owner, '/', repo + ['/'] + tail);
      SplitAround(repo, '/', tail);
      SplitNoSeparator(repo, '/');
      var later := Split(tail, '/');
      assert Split(path, '/') == [""] + ([owner] + ([repo] + later));
      NonEmptyAppend([""], [owner] + ([repo] + later));
      NonEmptyAppend([owner], [repo] + later);
      NonEmptyAppend([repo], later);
    }
  }

  /** A host other than github.com is rejected whatever the path. */
  lemma RejectsOtherHosts(hostname: string, pathname: string)
    requires hostname != GitHubHost
    ensures ExtractRepoInfo(Some((hostname, pathname))) == None
  {
  }

  /** A path with only one segment (`https://github.com/owner`) is rejected. */
  lemma RejectsOwnerOnly(owner: string)
    requires '/' !in owner
    ensures ExtractRepoInfo(Some((GitHubHost, "/" + owner))) == None
  {
    SplitNoSeparator(owner, '/');
    assert "/" + owner == "" + ['/'] + owner;
    SplitAround("", '/', owner);
    NonEmptyAppend([""], [owner]);
  }
}

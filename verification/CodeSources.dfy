/** Where a project version's code comes from, the rules a source must keep, and the key it is filed
    under. */
module CodeSources {
  import opened Options
  import opened Numerals
  import opened Conditions
  import opened Charges

  datatype Source =
    | GitHub(repo: string, commit: string, target: Option<string>)
    | WasmUrl(url: string, hash: string, target: Option<string>)

  const MAX_WASM_URL_LEN: nat := 2048
  const MAX_REPO_LEN: nat := 512
  const MAX_COMMIT_LEN: nat := 256
  const MAX_BUILD_TARGET_LEN: nat := 64

  predicate IsAlphanumeric(c: char) {
    IsDigit(c) || 'a' <= c <= 'z' || 'A' <= c <= 'Z'
  }

  predicate MadeOf(s: string, extra: string) {
    forall i :: 0 <= i < |s| ==> IsAlphanumeric(s[i]) || s[i] in extra
  }

  predicate Contains(s: string, part: string) {
    StartsWith(s, part) || (s != [] && Contains(s[1..], part))
  }

  predicate IsGitText(s: string, maximum: nat, extra: string) {
    && 0 < |s| <= maximum && s[0] != '-' && !Contains(s, "..") && MadeOf(s, extra) && !Contains(s, "EVENT_JSON")
  }

  predicate IsUrl(url: string) {
    && StartsWith(url, "https://") && 8 < |url| <= MAX_WASM_URL_LEN
    && (forall i :: 0 <= i < |url| ==> url[i] > ' ' && url[i] as int != 127)
    && !Contains(url, "EVENT_JSON")
  }

  predicate IsTarget(target: Option<string>) {
    target.Some? ==> 0 < |target.value| <= MAX_BUILD_TARGET_LEN && MadeOf(target.value, "._-")
  }

  /** `code_source_error` has nothing to say. */
  predicate WellFormed(source: Source) {
    && IsTarget(source.target)
    && match source
       case GitHub(repo, commit, _) =>
         IsGitText(repo, MAX_REPO_LEN, "._-/:") && IsGitText(commit, MAX_COMMIT_LEN, "._/-+")
       case WasmUrl(url, hash, _) => IsLowerHex64(hash) && IsUrl(url)
  }

  /** `get_version_key`. */
  function VersionKey(source: Source): string {
    match source
    case GitHub(repo, commit, _) => repo + "@" + commit
    case WasmUrl(_, hash, _) => hash
  }

  lemma AtIsUnique(repo: string, commit: string, repo': string, commit': string)
    requires '@' !in repo && '@' !in repo' && repo + "@" + commit == repo' + "@" + commit'
    ensures repo == repo' && commit == commit'
  {
    var text := repo + "@" + commit;
    assert text[|repo|] == '@' && text[|repo'|] == '@';
    assert repo == text[..|repo|] && repo' == text[..|repo'|];
    assert commit == text[|repo| + 1..] && commit' == text[|repo'| + 1..];
  }

  lemma HashHoldsNoAt(repo: string, commit: string, hash: string)
    requires IsLowerHex64(hash)
    ensures repo + "@" + commit != hash
  {
    assert (repo + "@" + commit)[|repo|] == '@';
  }

  /** A well-formed source's key says which binary, or which repository and which commit, and is never
      empty: two sources share a key only if they name the same code. */
  lemma VersionKeyNamesTheCode(a: Source, b: Source)
    requires WellFormed(a) && WellFormed(b)
    ensures VersionKey(a) != []
    ensures VersionKey(a) == VersionKey(b) <==>
            (a.GitHub? && b.GitHub? && a.repo == b.repo && a.commit == b.commit) ||
            (a.WasmUrl? && b.WasmUrl? && a.hash == b.hash)
  {
    if VersionKey(a) == VersionKey(b) {
      if a.GitHub? && b.GitHub? {
        AtIsUnique(a.repo, a.commit, b.repo, b.commit);
      } else if a.GitHub? && b.WasmUrl? {
        HashHoldsNoAt(a.repo, a.commit, b.hash);
      } else if a.WasmUrl? && b.GitHub? {
        HashHoldsNoAt(b.repo, b.commit, a.hash);
      }
    }
  }

  /** How a version is named. */
  lemma VersionKeyText(repo: string, commit: string, url: string, hash: string, target: Option<string>)
    ensures VersionKey(GitHub(repo, commit, target)) == repo + "@" + commit
    ensures VersionKey(WasmUrl(url, hash, target)) == hash
  {
  }

  function TargetLen(target: Option<string>): nat {
    if target.Some? then |target.value| else 0
  }

  /** `calculate_version_storage_size`, priced. */
  function VersionPrice(source: Source): nat {
    var size := match source
      case GitHub(repo, commit, target) => |repo| + |commit| + TargetLen(target)
      case WasmUrl(url, hash, target) => |url| + |hash| + TargetLen(target);
    (150 + size + 64 + 8 + 16) * STORAGE_PRICE_PER_BYTE
  }
}

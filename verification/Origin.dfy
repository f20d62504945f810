/** Normalization of repository origins to one canonical form. */
module Origin {
  import opened Common

  const MAX_LENGTH: nat := 2048
  const HTTP := "http://"
  const HTTPS := "https://"
  const HOST := "github.com/"
  const GIT := ".git"

  datatype Refusal =
    | Empty | TooLong | NullByte | Fragment | Query | Credentials | PlainHttp | UnsupportedHost
    | NotOwnerAndRepo | BadOwner | BadRepo

  /** Unicode white space, as `str::trim` removes it. */
  predicate IsSpace(c: char) {
    var n := c as int;
    || 0x09 <= n <= 0x0D || n == 0x20 || n == 0x85 || n == 0xA0 || n == 0x1680 || 0x2000 <= n <= 0x200A
    || n == 0x2028 || n == 0x2029 || n == 0x202F || n == 0x205F || n == 0x3000
  }

  function TrimStart(s: string): string {
    if s != "" && IsSpace(s[0]) then TrimStart(s[1..]) else s
  }

  function TrimEnd(s: string): string {
    if s != "" && IsSpace(s[|s| - 1]) then TrimEnd(s[..|s| - 1]) else s
  }

  function Trim(s: string): string {
    TrimEnd(TrimStart(s))
  }

  predicate AllSpace(s: string) {
    forall c :: c in s ==> IsSpace(c)
  }

  lemma {:induction false} TrimStartIs(s: string)
    ensures |TrimStart(s)| <= |s| && TrimStart(s) == s[|s| - |TrimStart(s)|..]
    ensures AllSpace(s[..|s| - |TrimStart(s)|])
    ensures TrimStart(s) != "" ==> !IsSpace(TrimStart(s)[0])
  {
    if s != "" && IsSpace(s[0]) {
      TrimStartIs(s[1..]);
      var n := |s| - |TrimStart(s)|;
      assert s[..n] == [s[0]] + s[1..][..n - 1];
    }
  }

  lemma {:induction false} TrimEndIs(s: string)
    ensures TrimEnd(s) <= s && AllSpace(s[|TrimEnd(s)|..])
    ensures TrimEnd(s) != "" ==> !IsSpace(TrimEnd(s)[|TrimEnd(s)| - 1])
  {
    if s != "" && IsSpace(s[|s| - 1]) {
      var front := s[..|s| - 1];
      TrimEndIs(front);
      assert s[|TrimEnd(s)|..] == front[|TrimEnd(s)|..] + [s[|s| - 1]];
    }
  }

  /** Trimming takes away white space at both ends and nothing else. */
  lemma TrimIs(s: string) returns (left: string, right: string)
    ensures s == left + Trim(s) + right && AllSpace(left) && AllSpace(right)
    ensures Trim(s) != "" ==> !IsSpace(Trim(s)[0]) && !IsSpace(Trim(s)[|Trim(s)| - 1])
  {
    hide IsSpace;
    var t := TrimStart(s);
    TrimStartIs(s);
    TrimEndIs(t);
    left, right := s[..|s| - |t|], t[|Trim(s)|..];
    assert s == left + t && t == Trim(s) + right;
  }

  function TrimSlashes(s: string): string {
    if s != "" && s[|s| - 1] == '/' then TrimSlashes(s[..|s| - 1]) else s
  }

  predicate EndsWithGit(s: string) {
    |s| >= 4 && s[|s| - 4..] == GIT
  }

  function StripGit(s: string): string {
    if EndsWithGit(s) then s[..|s| - 4] else s
  }

  predicate OwnerChar(c: char) {
    Alphanumeric(c) || c == '-'
  }

  predicate RepoChar(c: char) {
    Alphanumeric(c) || c == '.' || c == '_' || c == '-'
  }

  predicate ValidOwner(s: string) {
    s != "" && forall c :: c in s ==> OwnerChar(c)
  }

  predicate ValidRepo(s: string) {
    s != "" && forall c :: c in s ==> RepoChar(c)
  }

  /** The characters of owners and repositories. */
  lemma NamesAre(s: string)
    ensures ValidOwner(s) <==>
              s != "" && forall c :: c in s ==> '0' <= c <= '9' || 'A' <= c <= 'Z' || 'a' <= c <= 'z' || c == '-'
    ensures ValidRepo(s) <==>
              s != "" && forall c :: c in s ==>
                '0' <= c <= '9' || 'A' <= c <= 'Z' || 'a' <= c <= 'z' || c == '.' || c == '_' || c == '-'
  {}

  function Print(owner: string, repo: string): string {
    HTTPS + HOST + owner + "/" + repo
  }

  /** From the owner on: trailing slashes, one `.git`, then exactly two segments. */
  function Finish(rest: string): Result<string, Refusal> {
    var path := StripGit(TrimSlashes(rest));
    var i := Slash(path);
    if i == |path| || '/' in path[i + 1..] then Err(NotOwnerAndRepo)
    else if !ValidOwner(path[..i]) then Err(BadOwner)
    else if !ValidRepo(path[i + 1..]) then Err(BadRepo)
    else Ok(Print(path[..i], path[i + 1..]))
  }

  /** `normalize_repository_origin`. */
  function Normalize(input: string): Result<string, Refusal> {
    var trimmed := Trim(input);
    if trimmed == "" then Err(Empty)
    else if Utf8Len(trimmed) > MAX_LENGTH then Err(TooLong)
    else if '\0' in trimmed then Err(NullByte)
    else if '#' in trimmed then Err(Fragment)
    else if '?' in trimmed then Err(Query)
    else if '@' in trimmed then Err(Credentials)
    else if HTTP <= trimmed then Err(PlainHttp)
    else if HTTPS <= trimmed then
      var rest := trimmed[|HTTPS|..];
      if HOST <= rest then Finish(rest[|HOST|..]) else Err(UnsupportedHost)
    else Finish(trimmed)
  }

  /** Within the bound and free of the characters that are refused anywhere. */
  predicate Clean(t: string) {
    t != "" && Utf8Len(t) <= 2048 && '\0' !in t && '#' !in t && '?' !in t && '@' !in t
  }

  /** Which refusal is given before the owner is looked at, for every input. */
  lemma EarlyRefusals(input: string)
    ensures var t, r := Trim(input), Normalize(input);
            var fits := t != "" && Utf8Len(t) <= 2048;
            && (r == Err(Empty) <==> t == "")
            && (r == Err(TooLong) <==> Utf8Len(t) > 2048)
            && (r == Err(NullByte) <==> fits && '\0' in t)
            && (r == Err(Fragment) <==> fits && '\0' !in t && '#' in t)
            && (r == Err(Query) <==> fits && '\0' !in t && '#' !in t && '?' in t)
            && (r == Err(Credentials) <==> fits && '\0' !in t && '#' !in t && '?' !in t && '@' in t)
            && (r == Err(PlainHttp) <==> Clean(t) && HTTP <= t)
            && (r == Err(UnsupportedHost) <==> Clean(t) && HTTPS <= t && !(HTTPS + HOST <= t))
  {
    hide Trim;
    var t := Trim(input);
    assert t == "" ==> Utf8Len(t) == 0;
    SchemesDiffer(t);
    HostFollows(t);
    hide Utf8Len;
  }

  lemma SchemesDiffer(t: string)
    ensures !(HTTP <= t && HTTPS <= t)
  {
    assert HTTP[4] != HTTPS[4];
  }

  lemma HostFollows(t: string)
    ensures HTTPS <= t ==> (HTTPS + HOST <= t <==> HOST <= t[|HTTPS|..])
  {
    if HTTPS <= t {
      assert t == HTTPS + t[|HTTPS|..];
      if HOST <= t[|HTTPS|..] {
        assert t[..|HTTPS + HOST|] == HTTPS + HOST;
      }
      if HTTPS + HOST <= t {
        assert t[|HTTPS|..][..|HOST|] == (HTTPS + HOST)[|HTTPS|..];
      }
    }
  }

  /** Which refusal is given to what follows the host. */
  lemma LateRefusals(rest: string)
    ensures var path, r := StripGit(TrimSlashes(rest)), Finish(rest);
            && (r == Err(NotOwnerAndRepo) <==>
                  forall owner, repo :: '/' !in owner && '/' !in repo ==> path != owner + "/" + repo)
            && (forall owner, repo :: path == owner + "/" + repo && '/' !in owner && '/' !in repo ==>
                  && (r == Err(BadOwner) <==> !ValidOwner(owner))
                  && (r == Err(BadRepo) <==> ValidOwner(owner) && !ValidRepo(repo)))
  {
    hide ValidOwner, ValidRepo, TrimSlashes, StripGit, Print;
    var path := StripGit(TrimSlashes(rest));
    var i := Slash(path);
    if i < |path| {
      assert path == path[..i] + "/" + path[i + 1..];
    }
    forall owner, repo | '/' !in owner && '/' !in repo && path == owner + "/" + repo
      ensures i == |owner| && path[..i] == owner && path[i + 1..] == repo
    {
      SlashAfterName(owner, repo);
    }
  }

  // ---- equivalent spellings ----

  function Slashes(n: nat): string {
    if n == 0 then "" else Slashes(n - 1) + "/"
  }

  lemma {:induction false} TrailingSlashesGo(s: string, n: nat)
    requires s != "" && s[|s| - 1] != '/'
    ensures TrimSlashes(s + Slashes(n)) == s
  {
    if n == 0 {
      assert s + Slashes(n) == s;
    } else {
      var t := s + Slashes(n);
      assert t[|t| - 1] == '/' && t[..|t| - 1] == s + Slashes(n - 1);
      TrailingSlashesGo(s, n - 1);
    }
  }

  lemma ParsesBack(owner: string, repo: string)
    requires ValidOwner(owner) && ValidRepo(repo)
    ensures var path := owner + "/" + repo;
            && Slash(path) == |owner| && path[..|owner|] == owner && path[|owner| + 1..] == repo
            && '/' !in repo && '/' !in owner
  {
    assert '/' !in owner && '/' !in repo;
    SlashAfterName(owner, repo);
  }

  /** One `.git` and any trailing slashes make no difference after the host. */
  lemma FinishIgnoresSuffixes(owner: string, repo: string, git: bool, slashes: nat)
    requires ValidOwner(owner) && ValidRepo(repo) && (git || !EndsWithGit(repo))
    ensures Finish(owner + "/" + repo + (if git then GIT else "") + Slashes(slashes)) == Ok(Print(owner, repo))
  {
    hide Print;
    var path := owner + "/" + repo;
    var spelled := path + (if git then GIT else "");
    ParsesBack(owner, repo);
    assert repo[|repo| - 1] in repo;
    assert spelled[|spelled| - 1] == if git then 't' else repo[|repo| - 1];
    TrailingSlashesGo(spelled, slashes);
    if git {
      assert spelled[|spelled| - 4..] == GIT && spelled[..|spelled| - 4] == path;
    } else {
      assert spelled == path;
      NotGit(owner, repo);
    }
    assert StripGit(TrimSlashes(spelled + Slashes(slashes))) == path;
  }

  lemma NotGit(owner: string, repo: string)
    requires ValidRepo(repo)
    ensures EndsWithGit(owner + "/" + repo) <==> EndsWithGit(repo)
  {
    var path := owner + "/" + repo;
    if |repo| >= 4 {
      assert path[|path| - 4..] == repo[|repo| - 4..];
    } else if |path| >= 4 {
      var k := |path| - 4;
      assert path[k..][|owner| - k] == '/';
      assert GIT[0] != '/' && GIT[1] != '/' && GIT[2] != '/' && GIT[3] != '/';
    }
  }

  /** Characters that neither trimming nor the refusals look at. */
  predicate Plain(s: string) {
    forall c :: c in s ==> !IsSpace(c) && c != '\0' && c != '#' && c != '?' && c != '@'
  }

  lemma {:induction false} SlashesArePlain(n: nat)
    ensures Plain(Slashes(n))
  {
    if n > 0 {
      SlashesArePlain(n - 1);
    }
  }

  lemma TrimOfPlain(s: string)
    requires Plain(s)
    ensures Trim(s) == s
  {
    if s != "" {
      assert s[0] in s && s[|s| - 1] in s;
    }
  }

  function Spelling(owner: string, repo: string, https: bool, git: bool, slashes: nat): string {
    (if https then HTTPS + HOST else "") + (owner + "/" + repo + (if git then GIT else "") + Slashes(slashes))
  }

  lemma SpellingIsPlain(owner: string, repo: string, https: bool, git: bool, slashes: nat)
    requires ValidOwner(owner) && ValidRepo(repo)
    ensures Plain(Spelling(owner, repo, https, git, slashes))
  {
    SlashesArePlain(slashes);
    assert Plain(owner) && Plain(repo) && Plain(HTTPS + HOST) && Plain(GIT) && Plain("/") && Plain("");
    hide Plain, ValidOwner, ValidRepo, Slashes;
    PlainConcat(owner, "/");
    PlainConcat(owner + "/", repo);
    PlainConcat(owner + "/" + repo, if git then GIT else "");
    PlainConcat(owner + "/" + repo + (if git then GIT else ""), Slashes(slashes));
    PlainConcat(if https then HTTPS + HOST else "", owner + "/" + repo + (if git then GIT else "") + Slashes(slashes));
  }

  lemma PlainConcat(a: string, b: string)
    requires Plain(a) && Plain(b)
    ensures Plain(a + b)
  {
    hide IsSpace;
  }

  /** The https prefix, one `.git` suffix and any number of trailing slashes are all
      the same origin, as long as the text is within the length bound. */
  lemma SpellingsAgree(owner: string, repo: string, https: bool, git: bool, slashes: nat)
    requires ValidOwner(owner) && ValidRepo(repo) && (git || !EndsWithGit(repo))
    requires Utf8Len(Spelling(owner, repo, https, git, slashes)) <= MAX_LENGTH
    ensures Normalize(Spelling(owner, repo, https, git, slashes)) == Ok(Print(owner, repo))
    ensures forall input :: Trim(input) == Spelling(owner, repo, https, git, slashes) ==>
              Normalize(input) == Ok(Print(owner, repo))
  {
    SpellingIsPlain(owner, repo, https, git, slashes);
    TrimOfPlain(Spelling(owner, repo, https, git, slashes));
    forall input | Trim(input) == Spelling(owner, repo, https, git, slashes)
      ensures Normalize(input) == Normalize(Trim(input))
    {
      hide Trim, Finish, Utf8Len;
    }
    hide Trim, Finish, Utf8Len, Spelling, Normalize;
    Spelled(owner, repo, https, git, slashes);
    FinishIgnoresSuffixes(owner, repo, git, slashes);
  }

  /** Inside the length bound, a spelling is judged by its part after the host alone. */
  lemma Spelled(owner: string, repo: string, https: bool, git: bool, slashes: nat)
    requires ValidOwner(owner) && ValidRepo(repo)
    requires Utf8Len(Spelling(owner, repo, https, git, slashes)) <= MAX_LENGTH
    ensures Normalize(Spelling(owner, repo, https, git, slashes)) ==
            Finish(owner + "/" + repo + (if git then GIT else "") + Slashes(slashes))
  {
    hide Finish, Utf8Len, ValidRepo, ValidOwner, Slashes, Trim, Plain, Normalize;
    var s := Spelling(owner, repo, https, git, slashes);
    var tail := owner + "/" + repo + (if git then GIT else "") + Slashes(slashes);
    SpellingIsPlain(owner, repo, https, git, slashes);
    assert owner + "/" + repo <= tail;
    NotHttp(owner, repo, tail);
    if https {
      HostGoes(s, tail);
    } else {
      assert s == tail;
      ShortForm(tail);
    }
  }

  lemma HostGoes(s: string, tail: string)
    requires s == HTTPS + HOST + tail && Plain(s) && Utf8Len(s) <= MAX_LENGTH
    ensures Normalize(s) == Finish(tail)
  {
    hide Finish, Utf8Len, Trim, IsSpace;
    assert Trim(s) == s by { TrimOfPlain(s); }
    assert '\0' !in s && '#' !in s && '?' !in s && '@' !in s;
    hide Plain;
    assert s[4] == 's' && HTTP[4] == ':';
    assert s[..8] == HTTPS && s[8..][..11] == HOST && s[8..][11..] == tail;
  }

  lemma ShortForm(tail: string)
    requires Plain(tail) && Utf8Len(tail) <= MAX_LENGTH && tail != "" && !(HTTP <= tail) && !(HTTPS <= tail)
    ensures Normalize(tail) == Finish(tail)
  {
    hide Finish, Utf8Len, Trim, IsSpace;
    assert Trim(tail) == tail by { TrimOfPlain(tail); }
    assert '\0' !in tail && '#' !in tail && '?' !in tail && '@' !in tail;
    hide Plain;
    var https := HTTPS <= tail;
    assert !https;
  }

  /** An owner contains no colon, so no short spelling starts with a scheme. */
  lemma NotHttp(owner: string, repo: string, tail: string)
    requires ValidOwner(owner) && owner + "/" + repo <= tail
    ensures !(HTTP <= tail) && !(HTTPS <= tail) && tail != ""
  {
    var head := owner + "/" + repo;
    assert head[|owner|] == '/';
    assert forall i :: 0 <= i < |owner| ==> head[i] == owner[i] && owner[i] in owner;
    assert tail[|owner|] == '/';
    assert forall i :: 0 <= i < |owner| ==> tail[i] != ':';
    NoScheme(HTTP, 4, tail, |owner|);
    NoScheme(HTTPS, 5, tail, |owner|);
  }

  lemma NoScheme(scheme: string, colon: nat, tail: string, n: nat)
    requires colon < |scheme| && scheme[colon] == ':' && '/' !in scheme[..colon]
    requires n < |tail| && tail[n] == '/' && forall i :: 0 <= i < n ==> tail[i] != ':'
    ensures !(scheme <= tail)
  {
    assert n < colon ==> scheme[n] in scheme[..colon];
    assert |scheme| <= |tail| ==> if n < colon then scheme[n] != tail[n] else scheme[colon] != tail[colon];
  }

  lemma {:induction false} SlashesTrimmed(s: string) returns (n: nat)
    ensures s == TrimSlashes(s) + Slashes(n)
  {
    if s != "" && s[|s| - 1] == '/' {
      var m := SlashesTrimmed(s[..|s| - 1]);
      n := m + 1;
    } else {
      n := 0;
    }
  }

  lemma GitStripped(s: string) returns (git: bool)
    ensures s == StripGit(s) + if git then GIT else ""
    ensures git || (StripGit(s) == s && !EndsWithGit(s))
  {
    git := EndsWithGit(s);
    if git {
      assert s == s[..|s| - 4] + s[|s| - 4..];
    }
  }

  lemma FinishAccepts(rest: string) returns (owner: string, repo: string, git: bool, slashes: nat)
    requires Finish(rest).Ok?
    ensures ValidOwner(owner) && ValidRepo(repo) && (git || !EndsWithGit(repo))
    ensures rest == owner + "/" + repo + (if git then GIT else "") + Slashes(slashes)
    ensures Finish(rest).value == Print(owner, repo)
  {
    hide Print, Slashes;
    slashes := SlashesTrimmed(rest);
    git := GitStripped(TrimSlashes(rest));
    var path := StripGit(TrimSlashes(rest));
    var i := Slash(path);
    owner, repo := path[..i], path[i + 1..];
    assert path == owner + "/" + repo;
    NotGit(owner, repo);
  }

  /** An accepted origin is, between white space, one of the spellings of a valid owner
      and repository within the length bound, and normalizes to their printed form.
      With SpellingsAgree this says exactly what is accepted. */
  lemma AcceptedIsASpelling(input: string)
    returns (owner: string, repo: string, https: bool, git: bool, slashes: nat)
    requires Normalize(input).Ok?
    ensures ValidOwner(owner) && ValidRepo(repo) && (git || !EndsWithGit(repo))
    ensures Trim(input) == Spelling(owner, repo, https, git, slashes) && Utf8Len(Trim(input)) <= MAX_LENGTH
    ensures Normalize(input).value == Print(owner, repo)
  {
    hide Print, Finish, Utf8Len, IsSpace, Slashes, Trim;
    var trimmed := Trim(input);
    https := HTTPS <= trimmed;
    var rest := if https then trimmed[|HTTPS|..][|HOST|..] else trimmed;
    owner, repo, git, slashes := FinishAccepts(rest);
    if https {
      assert trimmed == HTTPS + trimmed[|HTTPS|..];
      assert trimmed[|HTTPS|..] == HOST + rest;
    }
  }

  /** A normalized origin normalizes to itself exactly when its repository does not end
      in `.git` and it is within the length bound. */
  lemma FixedPointIff(owner: string, repo: string)
    requires ValidOwner(owner) && ValidRepo(repo)
    ensures Normalize(Print(owner, repo)) == Ok(Print(owner, repo)) <==>
              !EndsWithGit(repo) && Utf8Len(Print(owner, repo)) <= 2048
  {
    var out := Print(owner, repo);
    assert out == Spelling(owner, repo, true, false, 0);
    SpellingIsPlain(owner, repo, true, false, 0);
    TrimOfPlain(out);
    if Utf8Len(out) <= MAX_LENGTH {
      if EndsWithGit(repo) {
        Spelled(owner, repo, true, false, 0);
        assert owner + "/" + repo + "" + Slashes(0) == owner + "/" + repo;
        GitIsLost(owner, repo);
      } else {
        SpellingsAgree(owner, repo, true, false, 0);
      }
    }
  }

  /** A repository that itself ends in `.git` loses exactly that ending; what is left must
      be a repository name of its own. */
  lemma GitIsLost(owner: string, repo: string)
    requires ValidOwner(owner) && ValidRepo(repo) && EndsWithGit(repo)
    ensures var rest := repo[..|repo| - 4];
            Finish(owner + "/" + repo) == if ValidRepo(rest) then Ok(Print(owner, rest)) else Err(BadRepo)
    ensures Finish(owner + "/" + repo) != Ok(Print(owner, repo))
  {
    var tail, rest := owner + "/" + repo, repo[..|repo| - 4];
    NotGit(owner, repo);
    assert repo[|repo| - 1] == repo[|repo| - 4..][3];
    assert tail[|tail| - 1] == 't';
    assert TrimSlashes(tail) == tail;
    assert forall c :: c in rest ==> c in repo;
    assert '/' !in owner && '/' !in rest;
    hide ValidOwner, ValidRepo, EndsWithGit, Print, TrimSlashes;
    var path := owner + "/" + rest;
    assert tail[..|tail| - 4] == path;
    assert StripGit(tail) == path;
    SlashAfterName(owner, rest);
    assert path[..|owner|] == owner && path[|owner| + 1..] == rest;
    PrintLength(owner, repo);
    PrintLength(owner, rest);
  }

  lemma PrintLength(owner: string, repo: string)
    ensures |Print(owner, repo)| == |HTTPS| + |HOST| + |owner| + 1 + |repo|
  {
  }
}

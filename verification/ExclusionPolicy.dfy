/** Case-insensitive text matching as the helper's byte-wise `tolower` does it. */
module Text {
  function Lower(c: char): (r: char)
    ensures r != c <==> 'A' <= c <= 'Z'
    ensures r != c ==> 'a' <= r <= 'z' && r as int - 'a' as int == c as int - 'A' as int
  {
    if 'A' <= c <= 'Z' then (c as int + 32) as char else c
  }

  function ToLower(s: string): (r: string)
    ensures |r| == |s|
  {
    seq(|s|, i requires 0 <= i < |s| => Lower(s[i]))
  }

  predicate IEquals(a: string, b: string) {
    |a| == |b| && forall i :: 0 <= i < |a| ==> Lower(a[i]) == Lower(b[i])
  }

  method IEqualsScan(a: string, b: string) returns (equal: bool)
    ensures equal <==> ToLower(a) == ToLower(b)
  {
    if |a| != |b| {
      return false;
    }
    for i := 0 to |a|
      invariant forall j :: 0 <= j < i ==> Lower(a[j]) == Lower(b[j])
    {
      if Lower(a[i]) != Lower(b[i]) {
        assert ToLower(a)[i] != ToLower(b)[i];
        return false;
      }
    }
    return true;
  }

  lemma IEqualsIsEqualityOfLower(a: string, b: string)
    ensures IEquals(a, b) <==> ToLower(a) == ToLower(b)
  {
    if ToLower(a) == ToLower(b) {
      forall i | 0 <= i < |a| ensures Lower(a[i]) == Lower(b[i]) {
        assert ToLower(a)[i] == ToLower(b)[i];
      }
    }
  }

  predicate IMatchesAt(text: string, needle: string, at: nat)
    requires at + |needle| <= |text|
  {
    IEquals(text[at..at + |needle|], needle)
  }

  predicate IContains(text: string, needle: string) {
    exists at :: 0 <= at <= |text| - |needle| && IMatchesAt(text, needle, at)
  }

  /** Index just past the last occurrence of `c`, or 0 when there is none. */
  function PastLast(s: string, c: char): (r: nat)
    ensures r <= |s| && c !in s[r..]
    ensures r > 0 ==> s[r - 1] == c
  {
    if s == [] then 0
    else if s[|s| - 1] == c then |s|
    else
      var r := PastLast(s[..|s| - 1], c);
      assert s[r..] == s[..|s| - 1][r..] + [s[|s| - 1]];
      r
  }

  function Basename(path: string): string {
    if '\\' in path then path[PastLast(path, '\\')..] else path[PastLast(path, '/')..]
  }

  /** What stands behind the last backslash, or without one behind the last slash. */
  lemma BasenameMeans(path: string)
    ensures var r, k := Basename(path), |path| - |Basename(path)|;
            && k >= 0 && r == path[k..]
            && ('\\' in path ==> '\\' !in r && k > 0 && path[k - 1] == '\\')
            && ('\\' !in path && '/' in path ==> '/' !in r && k > 0 && path[k - 1] == '/')
            && ('\\' !in path && '/' !in path ==> r == path)
  {
  }
}

/** Which processes must never be captured, and what "inside a directory" means. */
module ExclusionPolicy {
  import opened Base
  import opened Text

  datatype ScreenLinkIdentity = ScreenLinkIdentity(
    rootPid: uint32,
    rootCreationTime: uint64,
    packagedPath: string,
    installationRoot: string,
    devAppRoot: string,
    devEntrypoint: string,
    isPackaged: bool,
    helperExePath: string)
  {
    predicate HasCurrentProcessIdentity() { rootPid != 0 && rootCreationTime != 0 }
    predicate HasPackagedIdentity() { packagedPath != "" }
    predicate HasDevelopmentIdentity() { devAppRoot != "" || devEntrypoint != "" }
    predicate IsCurrentRoot(pid: uint32, creationTime: uint64) {
      rootPid == pid && rootCreationTime == creationTime
    }
  }

  // ---- Paths ----

  /** The operating system's path canonicaliser; "" stands for its failures. */
  type Canonicalizer = string -> string

  function StripQuotes(s: string): string {
    if |s| >= 2 && s[0] == '"' && s[|s| - 1] == '"' then s[1..|s| - 1] else s
  }

  function StripTrailingBackslash(s: string): string {
    if |s| > 3 && s[|s| - 1] == '\\' then s[..|s| - 1] else s
  }

  function NormalizePath(canon: Canonicalizer, raw: string): string {
    var stripped := StripQuotes(raw);
    if raw == "" || stripped == "" then ""
    else StripTrailingBackslash(ToLower(canon(stripped)))
  }

  predicate IsDriveRoot(path: string) {
    |path| == 3 && path[1] == ':' && path[2] == '\\'
  }

  const PROGRAM_FILES := "\\program files"

  predicate EndsWith(s: string, suffix: string) {
    |s| >= |suffix| && s[|s| - |suffix|..] == suffix
  }

  /** Parents that would cover too much: drive roots and "Program Files". */
  predicate IsBroadRoot(path: string) {
    IsDriveRoot(path) || EndsWith(path, PROGRAM_FILES)
  }

  predicate IsPathContainedIn(canon: Canonicalizer, child: string, parent: string) {
    var c, p := NormalizePath(canon, child), NormalizePath(canon, parent);
    && c != "" && p != ""
    && !IsBroadRoot(p)
    && (if p[|p| - 1] == '\\' then p else p + "\\") <= c
  }

  /** What the canonicaliser returns: only a drive root may keep one trailing
      separator once the last one has been stripped. */
  ghost predicate CanonicalOutput(path: string) {
    var p := StripTrailingBackslash(ToLower(path));
    p != "" && p[|p| - 1] == '\\' ==> IsDriveRoot(p)
  }

  ghost predicate WellBehaved(canon: Canonicalizer) {
    forall s :: CanonicalOutput(canon(s))
  }

  /** The directory components of a path. */
  ghost function Components(path: string): (r: seq<string>)
    ensures r != []
  {
    if path == "" then [""] else PushChar(path[0], Components(path[1..]))
  }

  ghost function PushChar(c: char, rest: seq<string>): (r: seq<string>)
    requires rest != []
    ensures r != []
  {
    if c == '\\' then [""] + rest else [[c] + rest[0]] + rest[1..]
  }

  ghost function Join(parts: seq<string>): string
    requires parts != []
  {
    if |parts| == 1 then parts[0] else parts[0] + "\\" + Join(parts[1..])
  }

  lemma {:induction false} JoinComponents(path: string)
    ensures Join(Components(path)) == path
  {
    if path != "" {
      JoinComponents(path[1..]);
      var rest := Components(path[1..]);
      var all := Components(path);
      if path[0] == '\\' {
        assert all[1..] == rest;
      } else if |rest| > 1 {
        assert all[1..] == rest[1..];
      }
    }
  }

  lemma {:induction false} JoinAppend(a: seq<string>, b: seq<string>)
    requires a != [] && b != []
    ensures Join(a + b) == Join(a) + "\\" + Join(b)
  {
    if |a| == 1 {
      assert (a + b)[1..] == b;
    } else {
      JoinAppend(a[1..], b);
      assert (a + b)[1..] == a[1..] + b;
    }
  }

  lemma PushCharAppend(c: char, x: seq<string>, y: seq<string>)
    requires x != []
    ensures PushChar(c, x + y) == PushChar(c, x) + y
  {
    assert (x + y)[1..] == x[1..] + y;
  }

  lemma {:induction false} ComponentsAppend(a: string, b: string)
    ensures Components(a + "\\" + b) == Components(a) + Components(b)
  {
    var ab := a + "\\" + b;
    if a == "" {
      assert ab[1..] == b;
    } else {
      ComponentsAppend(a[1..], b);
      assert ab[1..] == a[1..] + "\\" + b;
      PushCharAppend(a[0], Components(a[1..]), Components(b));
    }
  }

  /** Starting with `parent\` is exactly having the parent's components as a proper prefix. */
  lemma PrefixIsComponentPrefix(parent: string, child: string)
    ensures parent + "\\" <= child <==> Components(parent) < Components(child)
  {
    if parent + "\\" <= child {
      var rest := child[|parent| + 1..];
      assert child == parent + "\\" + rest;
      ComponentsAppend(parent, rest);
    }
    var ps, cs := Components(parent), Components(child);
    if ps < cs {
      assert cs == ps + cs[|ps|..];
      JoinAppend(ps, cs[|ps|..]);
      JoinComponents(parent);
      JoinComponents(child);
    }
  }

  lemma ContainmentIsComponentPrefix(canon: Canonicalizer, child: string, parent: string)
    requires WellBehaved(canon)
    ensures IsPathContainedIn(canon, child, parent) <==>
            var c, p := NormalizePath(canon, child), NormalizePath(canon, parent);
            p != "" && !IsBroadRoot(p) && Components(p) < Components(c)
  {
    var c, p := NormalizePath(canon, child), NormalizePath(canon, parent);
    PrefixIsComponentPrefix(p, c);
    NormalizedEndsBare(canon, parent);
    if c == "" {
      assert Components(c) == [""];
    }
  }

  lemma NormalizedEndsBare(canon: Canonicalizer, raw: string)
    requires WellBehaved(canon)
    ensures var p := NormalizePath(canon, raw);
            p != "" && p[|p| - 1] == '\\' ==> IsDriveRoot(p)
  {
    assert CanonicalOutput(canon(StripQuotes(raw)));
  }

  lemma ContainmentIrreflexive(canon: Canonicalizer, path: string)
    requires WellBehaved(canon)
    ensures !IsPathContainedIn(canon, path, path)
  {
    ContainmentIsComponentPrefix(canon, path, path);
  }

  lemma ContainmentTransitive(canon: Canonicalizer, a: string, b: string, c: string)
    requires WellBehaved(canon)
    ensures IsPathContainedIn(canon, a, b) && IsPathContainedIn(canon, b, c) ==> IsPathContainedIn(canon, a, c)
  {
    ContainmentIsComponentPrefix(canon, a, b);
    ContainmentIsComponentPrefix(canon, b, c);
    ContainmentIsComponentPrefix(canon, a, c);
  }

  // ---- Process matching ----

  const DISCORD_VARIANTS: seq<string> :=
    ["discord.exe", "discordptb.exe", "discordcanary.exe", "discorddevelopment.exe"]

  predicate IsDiscordProcess(name: string) {
    exists i :: 0 <= i < |DISCORD_VARIANTS| && IEquals(Basename(name), DISCORD_VARIANTS[i])
  }

  predicate IsScreenLinkProcess(name: string, path: string) {
    || IContains(Basename(name), "screenlink")
    || (path != "" && IContains(Basename(path), "screenlink"))
  }

  predicate IsScreenLinkApplication(canon: Canonicalizer, id: ScreenLinkIdentity, path: string) {
    var n := NormalizePath(canon, path);
    && path != "" && n != ""
    && (|| (id.HasPackagedIdentity() && IEquals(n, id.packagedPath))
        || (id.isPackaged && id.HasPackagedIdentity() && id.installationRoot != ""
            && IsPathContainedIn(canon, n, id.installationRoot))
        || (id.HasDevelopmentIdentity() && id.devAppRoot != ""
            && IsPathContainedIn(canon, n, id.devAppRoot))
        || (id.HasDevelopmentIdentity() && id.devEntrypoint != "" && IEquals(n, id.devEntrypoint)))
  }

  predicate IsHelperExecutable(canon: Canonicalizer, id: ScreenLinkIdentity, path: string) {
    path != "" && id.helperExePath != ""
    && IEquals(NormalizePath(canon, path), NormalizePath(canon, id.helperExePath))
  }

  datatype ExclusionMatch = NoMatch | Discord | ScreenLink

  function CheckExclusionV2(canon: Canonicalizer, id: ScreenLinkIdentity,
                            name: string, path: string): ExclusionMatch {
    if IsDiscordProcess(name) then Discord
    else if path != "" && IsHelperExecutable(canon, id, path) then ScreenLink
    else if path != "" && IsScreenLinkApplication(canon, id, path) then ScreenLink
    else if IsScreenLinkProcess(name, path) then ScreenLink
    else NoMatch
  }

  /** Everything below a directory that lies inside the development root is
      excluded too, however deep: exclusion is closed under containment. */
  lemma DevelopmentTreeIsExcluded(canon: Canonicalizer, id: ScreenLinkIdentity,
                                  name: string, directory: string, path: string)
    requires WellBehaved(canon)
    ensures id.devAppRoot != "" && IsPathContainedIn(canon, directory, id.devAppRoot)
            && IsPathContainedIn(canon, path, directory)
            && NormalizePath(canon, NormalizePath(canon, path)) == NormalizePath(canon, path) ==>
              CheckExclusionV2(canon, id, name, path) ==
              if IsDiscordProcess(name) then Discord else ScreenLink
  {
    ContainmentTransitive(canon, path, directory, id.devAppRoot);
  }
}

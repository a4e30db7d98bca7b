/** The planner's rules in plain terms: who is eligible, who is excluded, what
    the counters count, and which session speaks for a root. */
module PlanRules {
  import opened Base
  import opened Text
  import opened ExclusionPolicy
  import opened ProcessResolver
  import opened CandidateOrder
  import opened SourcePlanner

  // ---- Names ----

  lemma ContainsIff(text: string, needle: string)
    ensures IContains(text, needle) <==>
            exists k :: 0 <= k <= |text| && ToLower(needle) <= ToLower(text)[k..]
  {
    var lowText, lowNeedle := ToLower(text), ToLower(needle);
    forall k | 0 <= k <= |text| - |needle| ensures IMatchesAt(text, needle, k) <==> lowNeedle <= lowText[k..] {
      var piece := text[k..k + |needle|];
      IEqualsIsEqualityOfLower(piece, needle);
      assert ToLower(piece) == lowText[k..][..|needle|];
    }
  }

  /** Discord is recognised by four file names in any case, wherever they stand. */
  lemma DiscordNames(name: string)
    ensures IsDiscordProcess(name) <==>
            ToLower(Basename(name)) in
              {"discord.exe", "discordptb.exe", "discordcanary.exe", "discorddevelopment.exe"}
  {
    var base := Basename(name);
    forall i | 0 <= i < 4 ensures IEquals(base, DISCORD_VARIANTS[i]) <==> ToLower(base) == DISCORD_VARIANTS[i] {
      IEqualsIsEqualityOfLower(base, DISCORD_VARIANTS[i]);
      LowerStays(DISCORD_VARIANTS[i]);
    }
    assert DISCORD_VARIANTS[0] == "discord.exe" && DISCORD_VARIANTS[1] == "discordptb.exe";
    assert DISCORD_VARIANTS[2] == "discordcanary.exe" && DISCORD_VARIANTS[3] == "discorddevelopment.exe";
  }

  lemma LowerStays(s: string)
    requires forall c :: c in s ==> !('A' <= c <= 'Z')
    ensures ToLower(s) == s
  {
    forall i | 0 <= i < |s| ensures ToLower(s)[i] == s[i] {
      assert s[i] in s;
    }
  }

  /** "screenlink" stands in a file name, in any case. */
  ghost predicate NamesScreenLink(path: string) {
    exists k :: 0 <= k <= |Basename(path)| && "screenlink" <= ToLower(Basename(path))[k..]
  }

  lemma ScreenLinkNames(name: string, path: string)
    ensures IsScreenLinkProcess(name, path) <==> NamesScreenLink(name) || (path != "" && NamesScreenLink(path))
  {
    LowerStays("screenlink");
    ContainsIff(Basename(name), "screenlink");
    ContainsIff(Basename(path), "screenlink");
  }

  /** The name "update.exe" under a path that mentions Discord. */
  ghost predicate UpdatesDiscord(name: string, path: string) {
    ToLower(name) == "update.exe" && exists k :: 0 <= k <= |path| && "discord" <= ToLower(path)[k..]
  }

  ghost predicate NamesDiscord(name: string, path: string) {
    || ToLower(Basename(name)) in
         {"discord.exe", "discordptb.exe", "discordcanary.exe", "discorddevelopment.exe"}
    || UpdatesDiscord(name, path)
  }

  lemma DiscordIff(name: string, path: string)
    ensures IsDiscordProcess(name) || IsDiscordUpdater(name, path) <==> NamesDiscord(name, path)
  {
    DiscordNames(name);
    LowerStays("discord");
    ContainsIff(path, "discord");
  }

  // ---- Eligible sessions ----

  /** A session becomes a candidate exactly when it belongs to a live, validated
      process with a resolved root, and no exclusion asked for matches the session
      or its root; the candidate carries the root's identity. */
  lemma EligibleIff(ctx: PlannerContext, s: AudioSession, c: Candidate)
    ensures var tree := ctx.resolve(s.pid);
            Classify(ctx, s) == Eligible(c) <==>
            && s.pid != 0 && !s.systemSound && s.processAlive && s.creationTime != 0 && s.identityValidated
            && tree.succeeded && tree.rootPid != 0 && tree.rootCreationTime != 0
            && (ctx.options.excludeDiscord ==>
                  && !NamesDiscord(s.executableName, s.executablePath)
                  && !NamesDiscord(tree.rootName, tree.rootPath))
            && (ctx.options.excludeScreenLink ==> !IsScreenLinkSession(ctx, s) && !IsScreenLinkRoot(ctx, tree))
            && c.identity == ProcessIdentity(tree.rootPid, tree.rootCreationTime)
            && c.sessionPid == s.pid && (c.activeSession <==> s.sessionState == 1)
            && c.executableName == s.executableName && c.executablePath == s.executablePath
            && c.rootExecutableName == tree.rootName && c.rootExecutablePath == tree.rootPath
  {
    var tree := ctx.resolve(s.pid);
    DiscordIff(s.executableName, s.executablePath);
    DiscordIff(tree.rootName, tree.rootPath);
  }

  /** The reasons against a session are looked at in a fixed order. */
  lemma RejectedIff(ctx: PlannerContext, s: AudioSession)
    ensures Classify(ctx, s) == SystemSound <==> s.pid == 0 || s.systemSound
    ensures Classify(ctx, s) == Expired <==> s.pid != 0 && !s.systemSound && !s.processAlive
    ensures var tree := ctx.resolve(s.pid);
            Classify(ctx, s) == Invalid <==>
            && s.pid != 0 && !s.systemSound && s.processAlive
            && (|| s.creationTime == 0 || !s.identityValidated
                || !tree.succeeded || tree.rootPid == 0 || tree.rootCreationTime == 0)
    ensures Classify(ctx, s) == DiscordExcluded ==>
              && ctx.options.excludeDiscord
              && (|| NamesDiscord(s.executableName, s.executablePath)
                  || NamesDiscord(ctx.resolve(s.pid).rootName, ctx.resolve(s.pid).rootPath))
    ensures Classify(ctx, s) == ScreenLinkExcluded ==>
              && ctx.options.excludeScreenLink
              && (IsScreenLinkSession(ctx, s) || IsScreenLinkRoot(ctx, ctx.resolve(s.pid)))
  {
    DiscordIff(s.executableName, s.executablePath);
    DiscordIff(ctx.resolve(s.pid).rootName, ctx.resolve(s.pid).rootPath);
  }

  // ---- The application itself ----

  /** With a known process of its own: that process and its sessions are the
      application's, told apart from a reused PID by the creation time. */
  lemma OwnProcessIsScreenLink(ctx: PlannerContext, s: AudioSession)
    requires var id := ctx.options.screenLinkIdentity;
             id.rootPid != 0 && id.rootCreationTime != 0
             && (|| (s.pid == id.rootPid && s.creationTime == id.rootCreationTime)
                 || (s.rootPid == id.rootPid && s.rootCreationTime == id.rootCreationTime))
    ensures IsScreenLinkSession(ctx, s)
  {
  }

  /** Without any structured identity the PID alone decides, besides the names. */
  lemma LegacyPidIff(ctx: PlannerContext, s: AudioSession)
    requires var id := ctx.options.screenLinkIdentity;
             && (id.rootPid == 0 || id.rootCreationTime == 0)
             && id.packagedPath == "" && id.devAppRoot == "" && id.devEntrypoint == ""
    ensures IsScreenLinkSession(ctx, s) <==>
            || NamesScreenLink(s.executableName)
            || (s.executablePath != "" && NamesScreenLink(s.executablePath))
            || (ctx.options.screenLinkPid != 0
                && (s.pid == ctx.options.screenLinkPid || s.rootPid == ctx.options.screenLinkPid))
  {
    ScreenLinkNames(s.executableName, s.executablePath);
  }

  /** With a structured identity a session is the application's when its process
      or root is the known one, its path is, or its name says so. */
  lemma ScreenLinkSessionIff(ctx: PlannerContext, s: AudioSession)
    requires var id := ctx.options.screenLinkIdentity;
             (id.rootPid != 0 && id.rootCreationTime != 0)
             || id.packagedPath != "" || id.devAppRoot != "" || id.devEntrypoint != ""
    ensures var id := ctx.options.screenLinkIdentity;
            IsScreenLinkSession(ctx, s) <==>
            || (id.rootPid != 0 && id.rootCreationTime != 0
                && (|| (s.pid == id.rootPid && s.creationTime == id.rootCreationTime)
                    || (s.rootPid == id.rootPid && s.rootCreationTime == id.rootCreationTime)))
            || IsScreenLinkApplication(ctx.canon, id, s.executablePath)
            || NamesScreenLink(s.executableName)
            || (s.executablePath != "" && NamesScreenLink(s.executablePath))
  {
    ScreenLinkNames(s.executableName, s.executablePath);
  }

  /** A root is the application's when it is the helper, lies where the application
      lies, or is named like it; a Discord name alone never makes it so. */
  lemma ScreenLinkRootIff(ctx: PlannerContext, tree: ProcessTreeResult)
    ensures var id, path := ctx.options.screenLinkIdentity, tree.rootPath;
            IsScreenLinkRoot(ctx, tree) <==>
            || NamesScreenLink(tree.rootName)
            || (path != "" && NamesScreenLink(path))
            || (path != "" && !IsDiscordProcess(tree.rootName)
                && (IsHelperExecutable(ctx.canon, id, path) || IsScreenLinkApplication(ctx.canon, id, path)))
  {
    ScreenLinkNames(tree.rootName, tree.rootPath);
  }

  /** Where the application lies: its packaged executable, anything below its
      installation, anything below its development root, or its entry point. */
  lemma ApplicationPathIff(canon: Canonicalizer, id: ScreenLinkIdentity, path: string)
    requires WellBehaved(canon)
    ensures var n := NormalizePath(canon, path);
            IsScreenLinkApplication(canon, id, path) <==>
            && path != "" && n != ""
            && (|| (id.packagedPath != "" && ToLower(n) == ToLower(id.packagedPath))
                || (id.packagedPath != "" && id.isPackaged && LiesBelow(canon, n, id.installationRoot))
                || LiesBelow(canon, n, id.devAppRoot)
                || (id.devEntrypoint != "" && ToLower(n) == ToLower(id.devEntrypoint)))
    ensures IsHelperExecutable(canon, id, path) <==>
            && path != "" && id.helperExePath != ""
            && ToLower(NormalizePath(canon, path)) == ToLower(NormalizePath(canon, id.helperExePath))
  {
    var n := NormalizePath(canon, path);
    IEqualsIsEqualityOfLower(n, id.packagedPath);
    IEqualsIsEqualityOfLower(n, id.devEntrypoint);
    IEqualsIsEqualityOfLower(NormalizePath(canon, path), NormalizePath(canon, id.helperExePath));
    BelowIff(canon, n, id.installationRoot);
    BelowIff(canon, n, id.devAppRoot);
  }

  /** The parent's components are a proper prefix, and the parent is neither a
      drive root nor a "Program Files" directory. */
  ghost predicate LiesBelow(canon: Canonicalizer, child: string, parent: string) {
    var c, p := NormalizePath(canon, child), NormalizePath(canon, parent);
    && parent != "" && p != ""
    && !(|p| == 3 && p[1..] == ":\\")
    && (forall start :: 0 <= start <= |p| ==> p[start..] != "\\program files")
    && Components(p) < Components(c)
  }

  lemma BelowIff(canon: Canonicalizer, child: string, parent: string)
    requires WellBehaved(canon)
    ensures IsPathContainedIn(canon, child, parent) <==> LiesBelow(canon, child, parent)
  {
    ContainmentIsComponentPrefix(canon, child, parent);
    var p := NormalizePath(canon, parent);
    assert EndsWith(p, PROGRAM_FILES) <==> exists start :: 0 <= start <= |p| && p[start..] == "\\program files" by {
      if start :| 0 <= start <= |p| && p[start..] == "\\program files" {
        assert start == |p| - 14;
      }
    }
    if |p| == 3 {
      assert p[1..] == [p[1], p[2]];
    }
  }

  // ---- Counters ----

  /** What the verdict counters count, session by session. */
  lemma {:induction false} CountersMean(ctx: PlannerContext, sessions: seq<AudioSession>)
    ensures CountVerdict(ctx, sessions, SystemSound) ==
            CountSessions(sessions, (s: AudioSession) => s.pid == 0 || s.systemSound)
    ensures CountVerdict(ctx, sessions, Expired) ==
            CountSessions(sessions, (s: AudioSession) => s.pid != 0 && !s.systemSound && !s.processAlive)
    ensures CountActive(ctx, sessions) ==
            CountSessions(sessions, (s: AudioSession) =>
              s.pid != 0 && !s.systemSound && s.processAlive && s.sessionState == 1)
  {
    if sessions != [] {
      CountersMean(ctx, sessions[..|sessions| - 1]);
      RejectedIff(ctx, sessions[|sessions| - 1]);
    }
  }

  /** What the identity counters count. */
  lemma IdentityCountersMean(s: AudioSession)
    requires s.pid != 0 && !s.systemSound
    ensures IsValidatedLive(s) <==> s.processAlive && s.identityValidated && s.creationTime != 0
    ensures IsLookupFailure(s) <==> !s.processAlive && !s.identityValidated && s.creationTime == 0
    ensures IsInconsistent(s) <==>
            || s.identityValidated != s.processAlive
            || s.identityValidated != (s.creationTime != 0)
  {
  }

  // ---- Which session speaks for a root ----

  /** Entry `k` is the first active one of its root or, if none is active, the
      first one. */
  ghost predicate IsFirstChoice(entries: seq<Candidate>, k: nat) {
    && k < |entries|
    && forall i :: 0 <= i < |entries| && entries[i].identity == entries[k].identity ==>
         if i < k then entries[k].activeSession && !entries[i].activeSession
         else entries[i].activeSession ==> entries[k].activeSession
  }

  lemma {:induction false} RootIsSpokenForByFirst(entries: seq<Candidate>, c: Candidate) returns (k: nat)
    requires c in Representatives(entries)
    ensures IsFirstChoice(entries, k) && entries[k] == c
  {
    var n := |entries| - 1;
    var front, last := entries[..n], entries[n];
    assert entries == front + [last];
    var reps := Representatives(front);
    RepresentativesRepresent(front);
    if c in reps && (c.identity != last.identity || c.activeSession || !last.activeSession) {
      k := RootIsSpokenForByFirst(front, c);
    } else {
      k := n;
      LastSpeaks(reps, front, last, c);
    }
  }

  lemma LastSpeaks(reps: seq<Candidate>, front: seq<Candidate>, last: Candidate, c: Candidate)
    requires Represents(reps, front) && c in Merge(reps, last)
    requires c in reps ==> c.identity == last.identity && !c.activeSession && last.activeSession
    ensures c == last
    ensures forall x :: x in front && x.identity == last.identity ==> last.activeSession && !x.activeSession
  {
    match IndexOfIdentity(reps, last.identity)
    case None =>
    case Some(j) =>
      assert reps[j] in reps;
  }
}

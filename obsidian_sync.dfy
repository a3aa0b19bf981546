/**
 * The formatting done by the Obsidian sync script: where a source file is copied in the
 * vault, and how its content is wrapped. The file system is a pair of maps (source files and
 * vault files, by path); `faulty` holds the files whose read or write throws.
 */
module ObsidianSync {

  const VaultDir := "/app/obsidian/Poshmark Assistant"

  const FilesToSync: seq<string> := [
    "HOMELAB_MANUAL.md", "CHANGELOG.md", "HOMELAB_RECOVERY.md", "DOCKER_GUIDE.md",
    "package.json", "src/app/schema.ts", "Dockerfile", "docker-compose.yml",
    "prisma/schema.prisma"]

  /** `s.split(sep).pop()`: the text after the last `sep`, or all of `s` when there is none. */
  function LastSegment(s: string, sep: char): string
    decreases |s|
  {
    if s == [] then []
    else if s[|s| - 1] == sep then []
    else LastSegment(s[..|s| - 1], sep) + [s[|s| - 1]]
  }

  /**
   * The last segment holds no separator, is a suffix of the text, and is either the whole
   * text or preceded by a separator.
   */
  lemma {:induction false} LastSegmentIsFinalPart(s: string, sep: char)
    ensures var r := LastSegment(s, sep);
      && sep !in r
      && |r| <= |s| && r == s[|s| - |r|..]
      && (|r| < |s| ==> s[|s| - |r| - 1] == sep)
      && (sep !in s ==> r == s)
    decreases |s|
  {
    if s != [] && s[|s| - 1] != sep {
      var p := s[..|s| - 1];
      LastSegmentIsFinalPart(p, sep);
      var r' := LastSegment(p, sep);
      assert s == p + [s[|s| - 1]];
      assert s[|s| - |r'| - 1..] == p[|p| - |r'|..] + [s[|s| - 1]];
      if |r'| < |p| {
        assert s[|s| - |r'| - 2] == p[|p| - |r'| - 1];
      }
    }
  }

  /** Whatever precedes the last separator does not matter. */
  lemma {:induction false} LastSegmentAfterSep(a: string, sep: char, b: string)
    requires sep !in b
    ensures LastSegment(a + [sep] + b, sep) == b
    decreases |b|
  {
    if b != [] {
      var b', c := b[..|b| - 1], b[|b| - 1];
      LastSegmentAfterSep(a, sep, b');
      var s := a + [sep] + b;
      assert s[..|s| - 1] == a + [sep] + b';
      assert b == b' + [c];
    }
  }

  /** The vault name: the last `/`-segment of the file name, or the name itself. */
  function TargetName(fileName: string): string
  {
    if '/' in fileName then LastSegment(fileName, '/') else fileName
  }

  /**
   * The target name has no `/`, ends the file name, and is the whole name exactly when the
   * name has no `/`; otherwise a `/` precedes it.
   */
  lemma TargetNameIsLastSegment(fileName: string)
    ensures var t := TargetName(fileName);
      && '/' !in t
      && |t| <= |fileName| && t == fileName[|fileName| - |t|..]
      && ('/' !in fileName <==> t == fileName)
      && ('/' in fileName ==> fileName[|fileName| - |t| - 1] == '/')
  {
    LastSegmentIsFinalPart(fileName, '/');
  }

  /** `path.join(VAULT_DIR, targetName + '.md')`; the name has no `/`, so joining is concatenation. */
  function OutputPath(fileName: string): string
  {
    VaultDir + "/" + TargetName(fileName) + ".md"
  }

  /** The output lies directly in the vault directory, under the target name plus `.md`. */
  lemma OutputPathInVault(fileName: string)
    ensures var p := OutputPath(fileName);
      && p[..|VaultDir| + 1] == VaultDir + "/"
      && LastSegment(p, '/') == TargetName(fileName) + ".md"
  {
    TargetNameIsLastSegment(fileName);
    var t := TargetName(fileName) + ".md";
    assert '/' !in t;
    assert OutputPath(fileName) == VaultDir + ['/'] + t;
    LastSegmentAfterSep(VaultDir, '/', t);
  }

  /** Two files land on the same vault path only when their target names agree. */
  lemma OutputPathInjective(f: string, g: string)
    requires OutputPath(f) == OutputPath(g)
    ensures TargetName(f) == TargetName(g)
  {
    var n := |VaultDir| + 1;
    var p := OutputPath(f);
    assert TargetName(f) == p[n..|p| - 3];
    assert TargetName(g) == OutputPath(g)[n..|p| - 3];
  }

  predicate EndsWith(s: string, suffix: string)
  {
    |suffix| <= |s| && s[|s| - |suffix|..] == suffix
  }

  /** Content is fenced for `.json`, `.yml` and `.prisma` files and for `Dockerfile`. */
  predicate IsFenced(fileName: string)
  {
    EndsWith(fileName, ".json") || EndsWith(fileName, ".yml") || EndsWith(fileName, ".prisma")
    || fileName == "Dockerfile"
  }

  /** `fileName.split('.').pop() || 'text'`. */
  function FenceLanguage(fileName: string): string
  {
    var ext := LastSegment(fileName, '.');
    if ext == "" then "text" else ext
  }

  /** A name ending in `.` and a dot-free, non-empty extension has that extension as fence language. */
  lemma FenceLanguageIsExtension(base: string, ext: string)
    requires '.' !in ext && ext != ""
    ensures FenceLanguage(base + ['.'] + ext) == ext
  {
    LastSegmentAfterSep(base, '.', ext);
  }

  /** The fence language of a fenced file is its extension, and `Dockerfile` for `Dockerfile`. */
  lemma FenceLanguageOfFenced(fileName: string)
    requires IsFenced(fileName)
    ensures EndsWith(fileName, ".json") ==> FenceLanguage(fileName) == "json"
    ensures EndsWith(fileName, ".yml") ==> FenceLanguage(fileName) == "yml"
    ensures EndsWith(fileName, ".prisma") ==> FenceLanguage(fileName) == "prisma"
    ensures fileName == "Dockerfile" ==> FenceLanguage(fileName) == "Dockerfile"
  {
    var n := |fileName|;
    if EndsWith(fileName, ".json") {
      SplitExtension(fileName, "json");
    } else if EndsWith(fileName, ".yml") {
      SplitExtension(fileName, "yml");
    } else if EndsWith(fileName, ".prisma") {
      SplitExtension(fileName, "prisma");
    } else {
      assert '.' !in fileName;
      LastSegmentIsFinalPart(fileName, '.');
    }
  }

  lemma SplitExtension(fileName: string, ext: string)
    requires '.' !in ext && ext != "" && EndsWith(fileName, ['.'] + ext)
    ensures FenceLanguage(fileName) == ext
  {
    var base := fileName[..|fileName| - |ext| - 1];
    assert fileName == base + ['.'] + ext;
    FenceLanguageIsExtension(base, ext);
  }

  /** The front-matter header; the time stamp is a parameter. */
  function Header(stamp: string): string
  {
    "--- \ntag: [poshmark, backup, stable-1.2, auto-sync]\nlast_synced: " + stamp + "\n---\n"
  }

  /** The vault file's text: the header, then the content, fenced or verbatim. */
  function Render(fileName: string, content: string, stamp: string): string
  {
    Header(stamp)
    + if IsFenced(fileName) then "```" + FenceLanguage(fileName) + "\n" + content + "\n```" else content
  }

  /**
   * The rendered text starts with the header; an unfenced file's content follows it verbatim,
   * and a fenced file's content sits, unchanged, between the opening fence line and the
   * closing fence.
   */
  lemma RenderKeepsContent(fileName: string, content: string, stamp: string)
    ensures var r := Render(fileName, content, stamp);
      var h := |Header(stamp)|;
      && r[..h] == Header(stamp)
      && (!IsFenced(fileName) ==> r[h..] == content)
      && (IsFenced(fileName) ==>
            var open := "```" + FenceLanguage(fileName) + "\n";
            && r[h..h + |open|] == open
            && r[h + |open|..|r| - 4] == content
            && r[|r| - 4..] == "\n```")
  {
    var r := Render(fileName, content, stamp);
    var h := |Header(stamp)|;
    assert r[..h] == Header(stamp);
    if IsFenced(fileName) {
      var open := "```" + FenceLanguage(fileName) + "\n";
      assert r == Header(stamp) + open + content + "\n```";
      assert r[h..h + |open|] == open;
      assert r[h + |open|..|r| - 4] == content;
    } else {
      assert r[h..] == content;
    }
  }

  /** `syncFile`: a missing file writes nothing, an error is caught, otherwise the vault file is (re)written. */
  function SyncFile(sources: map<string, string>, faulty: set<string>, vault: map<string, string>,
                    fileName: string, stamp: string): map<string, string>
  {
    if fileName !in sources || fileName in faulty then vault
    else vault[OutputPath(fileName) := Render(fileName, sources[fileName], stamp)]
  }

  /** The vault after syncing the given files one after the other. */
  function SyncAll(names: seq<string>, sources: map<string, string>, faulty: set<string>,
                   vault: map<string, string>, stamp: string): map<string, string>
    decreases |names|
  {
    if names == [] then vault
    else SyncFile(sources, faulty, SyncAll(names[..|names| - 1], sources, faulty, vault, stamp),
                  names[|names| - 1], stamp)
  }

  /** The initial sync: `FILES_TO_SYNC.forEach(syncFile)`. */
  method InitialSync(names: seq<string>, sources: map<string, string>, faulty: set<string>,
                     vault: map<string, string>, stamp: string) returns (out: map<string, string>)
    ensures out == SyncAll(names, sources, faulty, vault, stamp)
  {
    out := vault;
    var i := 0;
    while i < |names|
      invariant 0 <= i <= |names|
      invariant out == SyncAll(names[..i], sources, faulty, vault, stamp)
    {
      assert names[..i + 1][..i] == names[..i];
      out := SyncFile(sources, faulty, out, names[i], stamp);
      i := i + 1;
    }
    assert names[..i] == names;
  }

  /**
   * Syncing only ever writes the output path of a listed file that exists and did not fail;
   * every other vault entry is left as it was.
   */
  lemma {:induction false} SyncWritesOnlyTargets(names: seq<string>, sources: map<string, string>,
                                                 faulty: set<string>, vault: map<string, string>,
                                                 stamp: string, p: string)
    requires forall n :: n in names && n in sources && n !in faulty ==> OutputPath(n) != p
    ensures var out := SyncAll(names, sources, faulty, vault, stamp);
      (p in out <==> p in vault) && (p in vault ==> out[p] == vault[p])
    decreases |names|
  {
    if names != [] {
      SyncWritesOnlyTargets(names[..|names| - 1], sources, faulty, vault, stamp, p);
    }
  }

  /**
   * A file that exists and syncs without error ends up rendered in the vault, whatever
   * happens to the other files, as long as no other listed file has the same target name.
   */
  lemma {:induction false} SyncIsolatesFailures(names: seq<string>, sources: map<string, string>,
                                                faulty: set<string>, vault: map<string, string>,
                                                stamp: string, n: string)
    requires n in names && n in sources && n !in faulty
    requires forall m :: m in names && OutputPath(m) == OutputPath(n) ==> m == n
    ensures var out := SyncAll(names, sources, faulty, vault, stamp);
      OutputPath(n) in out && out[OutputPath(n)] == Render(n, sources[n], stamp)
    decreases |names|
  {
    var prefix, last := names[..|names| - 1], names[|names| - 1];
    assert names == prefix + [last];
    if last != n {
      assert n in prefix;
      SyncIsolatesFailures(prefix, sources, faulty, vault, stamp, n);
    }
  }

  /** A name without `/` is its own target name. */
  lemma TargetOfPlainName(fileName: string)
    requires '/' !in fileName
    ensures TargetName(fileName) == fileName
  {
  }

  /** A name `dir/base` with a plain base has target name `base`. */
  lemma TargetOfNestedName(dir: string, base: string)
    requires '/' !in base
    ensures TargetName(dir + ['/'] + base) == base
  {
    LastSegmentAfterSep(dir, '/', base);
    assert '/' in dir + ['/'] + base;
  }

  /** The target names of the configured files, in order. */
  const ConfiguredTargetNames: seq<string> := [
    "HOMELAB_MANUAL.md", "CHANGELOG.md", "HOMELAB_RECOVERY.md", "DOCKER_GUIDE.md",
    "package.json", "schema.ts", "Dockerfile", "docker-compose.yml", "schema.prisma"]

  /** The configured files at the top level are their own target names. */
  lemma PlainConfiguredTargets()
    ensures forall i :: i in {0, 1, 2, 3, 4, 6, 7} ==> TargetName(FilesToSync[i]) == ConfiguredTargetNames[i]
  {
    TargetOfPlainName(FilesToSync[0]);
    TargetOfPlainName(FilesToSync[1]);
    TargetOfPlainName(FilesToSync[2]);
    TargetOfPlainName(FilesToSync[3]);
    TargetOfPlainName(FilesToSync[4]);
    TargetOfPlainName(FilesToSync[6]);
    TargetOfPlainName(FilesToSync[7]);
  }

  /** The two configured files in sub-directories have their base names as target names. */
  lemma NestedConfiguredTargets()
    ensures TargetName(FilesToSync[5]) == ConfiguredTargetNames[5]
    ensures TargetName(FilesToSync[8]) == ConfiguredTargetNames[8]
  {
    TargetOfNestedName("src/app", "schema.ts");
    assert "src/app" + ['/'] + "schema.ts" == FilesToSync[5];
    TargetOfNestedName("prisma", "schema.prisma");
    assert "prisma" + ['/'] + "schema.prisma" == FilesToSync[8];
  }

  /** The configured target names are pairwise different. */
  lemma ConfiguredTargetNamesDistinct()
    ensures forall i, j :: 0 <= i < j < |ConfiguredTargetNames| ==> ConfiguredTargetNames[i] != ConfiguredTargetNames[j]
  {
    var t := ConfiguredTargetNames;
    assert t[1][0] != t[4][0];
    forall i, j | 0 <= i < j < |t| && !(i == 1 && j == 4) ensures t[i] != t[j] {
      assert |t[i]| != |t[j]|;
    }
  }

  /** The configured files all land on different vault paths. */
  lemma ConfiguredTargetsDistinct()
    ensures forall i, j :: 0 <= i < j < |FilesToSync| ==> OutputPath(FilesToSync[i]) != OutputPath(FilesToSync[j])
  {
    PlainConfiguredTargets();
    NestedConfiguredTargets();
    ConfiguredTargetNamesDistinct();
    forall i, j | 0 <= i < j < |FilesToSync| ensures OutputPath(FilesToSync[i]) != OutputPath(FilesToSync[j]) {
      assert TargetName(FilesToSync[i]) == ConfiguredTargetNames[i];
      assert TargetName(FilesToSync[j]) == ConfiguredTargetNames[j];
      if OutputPath(FilesToSync[i]) == OutputPath(FilesToSync[j]) {
        OutputPathInjective(FilesToSync[i], FilesToSync[j]);
      }
    }
  }

  /** After the initial sync, every configured file that exists and did not fail is in the vault, rendered. */
  lemma InitialSyncOfConfiguredFiles(sources: map<string, string>, faulty: set<string>,
                                     vault: map<string, string>, stamp: string, n: string)
    requires n in FilesToSync && n in sources && n !in faulty
    ensures var out := SyncAll(FilesToSync, sources, faulty, vault, stamp);
      OutputPath(n) in out && out[OutputPath(n)] == Render(n, sources[n], stamp)
  {
    ConfiguredTargetsDistinct();
    SyncIsolatesFailures(FilesToSync, sources, faulty, vault, stamp, n);
  }
}

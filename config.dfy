/**
 * internal/config/config.go: the configuration record, the watchlist file
 * format (a comma-separated line) and the three file operations on it:
 * load (creating an empty file when absent), save (overwrite) and the
 * one-time migration from the legacy file.
 *
 * The file system is a map from path to content. A write to a path in
 * `denied` fails, standing for permission errors and a full disk.
 */
module Config {
  import opened Wrappers
  import opened Strings

  datatype Config = Config(
    configPath: string,
    watchlistPath: string,
    defaultTimeRange: string,
    defaultCurrency: string)

  // ---------------------------------------------------------------------
  // Paths: `filepath.Join` and `filepath.Clean` with the separator "/"

  /** The "/"-separated elements of a path: "/a/b" has the elements "", "a" and "b". */
  function PathElements(p: string): (r: seq<string>)
    ensures |r| >= 1
  {
    if p == [] then [""]
    else
      var rest := PathElements(p[1..]);
      if p[0] == '/' then [""] + rest else [[p[0]] + rest[0]] + rest[1..]
  }

  /** The elements put back together with "/" between them. */
  function JoinElements(l: seq<string>): string {
    if |l| == 0 then ""
    else if |l| == 1 then l[0]
    else l[0] + "/" + JoinElements(l[1..])
  }

  /** An element that cleaning keeps as it is: a name that is neither "", "." nor "..". */
  predicate PlainElement(e: string) {
    e != "" && e != "." && e != ".." && '/' !in e
  }

  /**
   * The elements `filepath.Clean` keeps, processed left to right: empty and
   * "." elements go, ".." removes the element before it, and a ".." at the
   * start of a rooted path goes too.
   */
  function CleanElements(elems: seq<string>, rooted: bool): seq<string> {
    if elems == [] then []
    else
      var kept := CleanElements(elems[..|elems| - 1], rooted);
      var e := elems[|elems| - 1];
      if e == "" || e == "." then kept
      else if e == ".." then
        if kept != [] && kept[|kept| - 1] != ".." then kept[..|kept| - 1]
        else if rooted then kept
        else kept + [".."]
      else kept + [e]
  }

  /** `filepath.Clean`: the shortest equivalent path, "." for an empty one. */
  function Clean(p: string): string {
    var rooted := p != [] && p[0] == '/';
    var body := JoinElements(CleanElements(PathElements(p), rooted));
    if rooted then "/" + body else if body == "" then "." else body
  }

  /** `filepath.Join(dir, name)`: the non-empty arguments joined with "/", then cleaned. */
  function PathJoin(dir: string, name: string): string {
    if dir == "" then (if name == "" then "" else Clean(name))
    else Clean(dir + "/" + name)
  }

  /** `<home>/.stockterm`, with "." when the home directory is unknown. */
  function ConfigDir(homeDir: Option<string>): string {
    PathJoin(if homeDir.Some? then homeDir.value else ".", ".stockterm")
  }

  /** A path whose elements are all plain, except the empty first one of a rooted path. */
  predicate PlainPath(p: string) {
    var e := PathElements(p);
    && (PlainElement(e[0]) || (e[0] == "" && |e| > 1))
    && forall i :: 0 < i < |e| ==> PlainElement(e[i])
  }

  lemma {:induction false} PathElementsAppend(a: string, b: string)
    ensures PathElements(a + "/" + b) == PathElements(a) + PathElements(b)
  {
    var p := a + "/" + b;
    if a == [] {
      assert p == "/" + b && p[1..] == b;
    } else {
      assert p[0] == a[0] && p[1..] == a[1..] + "/" + b;
      PathElementsAppend(a[1..], b);
      var ea, eb := PathElements(a[1..]), PathElements(b);
      var rest := PathElements(p[1..]);
      assert rest == ea + eb;
      if a[0] != '/' {
        assert rest[0] == ea[0];
        assert rest[1..] == ea[1..] + eb;
        assert PathElements(p) == [[a[0]] + ea[0]] + (ea[1..] + eb);
        assert PathElements(a) == [[a[0]] + ea[0]] + ea[1..];
      }
    }
  }

  lemma {:induction false} PathElementsOfName(e: string)
    requires '/' !in e
    ensures PathElements(e) == [e]
  {
    if e != [] {
      PathElementsOfName(e[1..]);
      assert [e[0]] + e[1..] == e;
    }
  }

  /** The first element is empty exactly for a rooted path. */
  lemma PathElementsRooted(p: string)
    requires p != []
    ensures (p[0] == '/') == (PathElements(p)[0] == "")
  {
  }

  lemma JoinElementsCons(x: string, l: seq<string>)
    requires |l| >= 1
    ensures JoinElements([x] + l) == x + "/" + JoinElements(l)
  {
    assert ([x] + l)[1..] == l;
  }

  /** A character put in front of the first element is put in front of the joined path. */
  lemma {:induction false} JoinElementsPrepend(c: char, l: seq<string>)
    requires |l| >= 1
    ensures JoinElements([[c] + l[0]] + l[1..]) == [c] + JoinElements(l)
  {
    var first, rest := [c] + l[0], l[1..];
    if |l| == 1 {
      assert [first] + rest == [first];
    } else {
      JoinElementsCons(first, rest);
      assert JoinElements(l) == l[0] + "/" + JoinElements(rest);
      var j := JoinElements(rest);
      assert first + "/" + j == [c] + (l[0] + "/" + j);
    }
  }

  lemma {:induction false} JoinPathElements(p: string)
    ensures JoinElements(PathElements(p)) == p
  {
    if p != [] {
      var rest := PathElements(p[1..]);
      JoinPathElements(p[1..]);
      assert p == [p[0]] + p[1..];
      if p[0] == '/' {
        JoinElementsCons("", rest);
      } else {
        JoinElementsPrepend(p[0], rest);
      }
    }
  }

  /** Cleaning keeps elements that are all plain, dropping only a rooted path's empty first one. */
  lemma {:induction false} CleanPlainElements(e: seq<string>, rooted: bool)
    requires e != []
    requires PlainElement(e[0]) || e[0] == ""
    requires forall i :: 0 < i < |e| ==> PlainElement(e[i])
    ensures CleanElements(e, rooted) == if e[0] == "" then e[1..] else e
  {
    if |e| > 1 {
      var init := e[..|e| - 1];
      CleanPlainElements(init, rooted);
      if e[0] == "" {
        assert init[1..] + [e[|e| - 1]] == e[1..];
      } else {
        assert init + [e[|e| - 1]] == e;
      }
    }
  }

  /** Joining a plain name onto a plain path is plain concatenation and keeps the path plain. */
  lemma PathJoinPlain(dir: string, name: string)
    requires PlainPath(dir) && PlainElement(name)
    ensures PathJoin(dir, name) == dir + "/" + name
    ensures PlainPath(dir + "/" + name)
  {
    var p := dir + "/" + name;
    PathElementsAppend(dir, name);
    PathElementsOfName(name);
    var e := PathElements(p);
    assert e == PathElements(dir) + [name];
    assert dir != [];
    PathElementsRooted(dir);
    assert p[0] == dir[0];
    CleanPlainElements(e, p[0] == '/');
    JoinPathElements(p);
    if e[0] == "" {
      assert JoinElements(e) == e[0] + "/" + JoinElements(e[1..]);
    }
  }

  lemma {:induction false} JoinElementsSnoc(l: seq<string>, x: string)
    ensures JoinElements(l + [x]) == if l == [] then x else JoinElements(l) + "/" + x
  {
    if |l| >= 1 {
      JoinElementsSnoc(l[1..], x);
      assert (l + [x])[1..] == l[1..] + [x];
      if |l| == 1 {
        assert l[1..] == [];
      }
    }
  }

  /** A cleaned path that ended in a plain name still ends in that name. */
  lemma CleanEndsWith(q: string, x: string)
    requires PlainElement(x)
    ensures |Clean(q + "/" + x)| >= |x|
    ensures Clean(q + "/" + x)[|Clean(q + "/" + x)| - |x|..] == x
  {
    var p := q + "/" + x;
    var rooted := p != [] && p[0] == '/';
    PathElementsAppend(q, x);
    PathElementsOfName(x);
    var e := PathElements(p);
    assert e[..|e| - 1] == PathElements(q);
    var kept := CleanElements(PathElements(q), rooted);
    assert CleanElements(e, rooted) == kept + [x];
    JoinElementsSnoc(kept, x);
  }

  /** A join with a non-empty name is non-empty. */
  lemma PathJoinNonEmpty(dir: string, name: string)
    requires name != ""
    ensures PathJoin(dir, name) != ""
  {
  }

  /** Two names that end differently stay apart when joined onto the same directory. */
  lemma PathJoinDistinct(dir: string, x: string, y: string)
    requires dir != "" && PlainElement(x) && PlainElement(y) && x[|x| - 1] != y[|y| - 1]
    ensures PathJoin(dir, x) != PathJoin(dir, y)
  {
    CleanEndsWith(dir, x);
    CleanEndsWith(dir, y);
    var px, py := PathJoin(dir, x), PathJoin(dir, y);
    assert px[|px| - 1] == x[|x| - 1];
    assert py[|py| - 1] == y[|y| - 1];
  }

  /** DefaultConfig; the home-directory lookup is its parameter. */
  function DefaultConfig(homeDir: Option<string>): (c: Config)
    ensures c.defaultTimeRange == "1d" && c.defaultCurrency == "USD"
    ensures c.watchlistPath == PathJoin(ConfigDir(homeDir), "watchlist.txt")
    ensures c.configPath == PathJoin(ConfigDir(homeDir), "config.yaml")
    ensures c.watchlistPath != c.configPath
  {
    var dir := ConfigDir(homeDir);
    PathJoinNonEmpty(if homeDir.Some? then homeDir.value else ".", ".stockterm");
    PathJoinDistinct(dir, "watchlist.txt", "config.yaml");
    Config(PathJoin(dir, "config.yaml"), PathJoin(dir, "watchlist.txt"), "1d", "USD")
  }

  /** Under a plain configuration directory the two files sit directly inside it. */
  lemma DefaultConfigInDir(homeDir: Option<string>, dir: string)
    requires ConfigDir(homeDir) == dir && PlainPath(dir)
    ensures DefaultConfig(homeDir).watchlistPath == dir + "/" + "watchlist.txt"
    ensures DefaultConfig(homeDir).configPath == dir + "/" + "config.yaml"
  {
    PathJoinPlain(dir, "watchlist.txt");
    PathJoinPlain(dir, "config.yaml");
  }

  /** For a plain home directory, the paths are the plain concatenations. */
  lemma DefaultConfigPlainHome(home: string)
    requires PlainPath(home)
    ensures DefaultConfig(Some(home)).watchlistPath == home + "/" + ".stockterm" + "/" + "watchlist.txt"
    ensures DefaultConfig(Some(home)).configPath == home + "/" + ".stockterm" + "/" + "config.yaml"
  {
    PathJoinPlain(home, ".stockterm");
    DefaultConfigInDir(Some(home), home + "/" + ".stockterm");
  }

  /** Joining a plain name onto "." gives the name alone. */
  lemma DotJoin(name: string)
    requires PlainElement(name)
    ensures PathJoin(".", name) == name
  {
    PathElementsAppend(".", name);
    PathElementsOfName(".");
    PathElementsOfName(name);
    var e := PathElements("." + "/" + name);
    assert e == [".", name];
    assert CleanElements(e[..1], false) == [] by {
      assert e[..1][..0] == [];
    }
    assert CleanElements(e, false) == [name];
  }

  /** Joining a plain name onto the root gives a single "/" before it. */
  lemma RootJoin(name: string)
    requires PlainElement(name)
    ensures PathJoin("/", name) == "/" + name
  {
    PathElementsAppend("/", name);
    PathElementsOfName(name);
    assert PathElements("/") == ["", ""] by {
      assert "/"[1..] == "";
    }
    var e := PathElements("/" + "/" + name);
    assert e == ["", "", name];
    assert CleanElements(e[..2], true) == [] by {
      assert e[..2][..1] == [""] && e[..2][..1][..0] == [];
    }
    assert CleanElements(e, true) == [name];
  }

  /** An empty element before a plain name is dropped by cleaning. */
  lemma CleanSkipsEmpty(e: seq<string>, name: string, rooted: bool)
    requires PlainElement(name)
    ensures CleanElements(e + ["", name], rooted) == CleanElements(e + [name], rooted)
  {
    var ep := e + ["", name];
    assert ep[..|ep| - 1] == e + [""];
    assert (e + [""])[..|e|] == e;
    assert (e + [name])[..|e|] == e;
  }

  /** The elements of a path with a doubled "/" before its last name. */
  lemma PathElementsSlash(dir: string, name: string)
    requires '/' !in name
    ensures PathElements(dir + "/" + "/" + name) == PathElements(dir) + ["", name]
    ensures PathElements(dir + "/" + name) == PathElements(dir) + [name]
  {
    assert dir + "/" + "/" + name == dir + "/" + ("/" + name);
    PathElementsAppend(dir, "/" + name);
    PathElementsAppend("", name);
    PathElementsAppend(dir, name);
    PathElementsOfName(name);
    assert "" + "/" + name == "/" + name;
  }

  /** A trailing "/" on a plain directory makes no difference to a join. */
  lemma SlashJoin(dir: string, name: string)
    requires PlainPath(dir) && PlainElement(name)
    ensures PathJoin(dir + "/", name) == PathJoin(dir, name)
  {
    var p := dir + "/" + "/" + name;
    var q := dir + "/" + name;
    PathElementsSlash(dir, name);
    assert dir != [];
    assert p[0] == dir[0] == q[0];
    CleanSkipsEmpty(PathElements(dir), name, dir[0] == '/');
  }

  /** A plain name is a plain path, and so is the name under the root. */
  lemma NamePlain(name: string)
    requires PlainElement(name)
    ensures PlainPath(name) && PlainPath("/" + name)
  {
    PathElementsOfName(name);
    PathElementsAppend("", name);
    assert "" + "/" + name == "/" + name;
  }

  /** Without a home directory the paths are relative, with no leading "./". */
  lemma DefaultConfigNoHome()
    ensures DefaultConfig(None).watchlistPath == ".stockterm" + "/" + "watchlist.txt"
    ensures DefaultConfig(None).configPath == ".stockterm" + "/" + "config.yaml"
  {
    DotJoin(".stockterm");
    NamePlain(".stockterm");
    DefaultConfigInDir(None, ".stockterm");
  }

  /** The root as home directory gives "/.stockterm/...", not a doubled "/". */
  lemma DefaultConfigRootHome()
    ensures DefaultConfig(Some("/")).watchlistPath == "/" + ".stockterm" + "/" + "watchlist.txt"
    ensures DefaultConfig(Some("/")).configPath == "/" + ".stockterm" + "/" + "config.yaml"
  {
    RootJoin(".stockterm");
    NamePlain(".stockterm");
    DefaultConfigInDir(Some("/"), "/" + ".stockterm");
  }

  /** A trailing "/" on the home directory makes no difference. */
  lemma DefaultConfigTrailingSlash(home: string)
    requires PlainPath(home)
    ensures DefaultConfig(Some(home + "/")) == DefaultConfig(Some(home))
  {
    SlashJoin(home, ".stockterm");
    assert ConfigDir(Some(home + "/")) == ConfigDir(Some(home));
  }

  datatype IoError =
    | CreateFileFailed(path: string)   // "failed to create watchlist file"
    | WriteFileFailed(path: string)    // "failed to write watchlist file"

  /** File contents by path; writes to a path in `denied` fail. */
  class Disk {
    var files: map<string, string>
    const denied: set<string>

    constructor (files: map<string, string>, denied: set<string>)
      ensures this.files == files && this.denied == denied
    {
      this.files := files;
      this.denied := denied;
    }
  }

  /** Every entry of `l` trimmed. */
  function TrimEach(l: seq<string>): seq<string> {
    if l == [] then [] else TrimEach(l[..|l| - 1]) + [TrimSpace(l[|l| - 1])]
  }

  lemma {:induction false} TrimEachEntries(l: seq<string>)
    ensures |TrimEach(l)| == |l|
    ensures forall i :: 0 <= i < |l| ==> TrimEach(l)[i] == TrimSpace(l[i])
  {
    if l != [] {
      var init := l[..|l| - 1];
      TrimEachEntries(init);
      var r := TrimEach(l);
      assert r == TrimEach(init) + [TrimSpace(l[|l| - 1])];
      forall i | 0 <= i < |l| ensures r[i] == TrimSpace(l[i]) {
        if i < |init| {
          assert r[i] == TrimEach(init)[i] && init[i] == l[i];
        }
      }
    }
  }

  /** Trimming entries that are already trimmed changes nothing. */
  lemma {:induction false} TrimEachOfTrimmed(l: seq<string>)
    requires forall i :: 0 <= i < |l| ==> Trimmed(l[i])
    ensures TrimEach(l) == l
  {
    if l != [] {
      var init, last := l[..|l| - 1], l[|l| - 1];
      assert forall i :: 0 <= i < |init| ==> init[i] == l[i];
      TrimEachOfTrimmed(init);
      TrimSpaceOfTrimmed(last);
      assert l == init + [last];
    }
  }

  /** How LoadWatchlist reads a file's content. */
  function ParseWatchlist(content: string): seq<string> {
    if content == "" then [] else TrimEach(Split(content))
  }

  /** An entry that survives a save and a load unchanged. */
  predicate Storable(e: string) {
    ',' !in e && Trimmed(e)
  }

  /**
   * A loaded watchlist holds one entry per comma-separated field of the
   * content, each trimmed. Empty content is the empty list.
   */
  lemma ParseWatchlistFields(content: string)
    ensures content == "" ==> ParseWatchlist(content) == []
    ensures content != "" ==>
      && |ParseWatchlist(content)| == CountCommas(content) + 1
      && |ParseWatchlist(content)| == |Split(content)|
      && forall i :: 0 <= i < |Split(content)| ==> ParseWatchlist(content)[i] == TrimSpace(Split(content)[i])
  {
    if content != "" {
      SplitPieces(content);
      TrimEachEntries(Split(content));
    }
  }

  /** Every loaded entry is storable: comma-free and trimmed. */
  lemma ParseWatchlistStorable(content: string)
    ensures forall e :: e in ParseWatchlist(content) ==> Storable(e)
  {
    if content != "" {
      var parts := Split(content);
      SplitPieces(content);
      TrimEachEntries(parts);
      forall e | e in ParseWatchlist(content) ensures Storable(e) {
        var i :| 0 <= i < |parts| && e == TrimSpace(parts[i]);
        TrimSpaceChars(parts[i]);
        TrimSpaceTrimmed(parts[i]);
      }
    }
  }

  /**
   * Round trip: saving a list of storable entries and loading it back gives
   * the same list. The one exception is `[""]`, which saves as empty
   * content and so loads as `[]`.
   */
  lemma SaveThenLoad(l: seq<string>)
    requires forall i :: 0 <= i < |l| ==> Storable(l[i])
    requires l != [""]
    ensures ParseWatchlist(Join(l)) == l
  {
    if l != [] {
      JoinEmpty(l);
      SplitJoin(l);
      TrimEachOfTrimmed(l);
    }
  }

  /** Saving `[""]` writes empty content, which loads as the empty list. */
  lemma SaveEmptyEntryLoadsEmpty()
    ensures Join([""]) == "" && ParseWatchlist(Join([""])) == []
  {
  }

  /**
   * Loading then saving leaves content unchanged when no field has white
   * space at its ends.
   */
  lemma LoadThenSave(content: string)
    requires forall i :: 0 <= i < |Split(content)| ==> Trimmed(Split(content)[i])
    ensures Join(ParseWatchlist(content)) == content
  {
    if content != "" {
      TrimEachOfTrimmed(Split(content));
      JoinSplit(content);
    }
  }

  /** The format example of two tickers, in both directions. */
  lemma FormatExample()
    ensures Join(["AAPL", "MSFT"]) == "AAPL,MSFT"
    ensures ParseWatchlist("AAPL,MSFT") == ["AAPL", "MSFT"]
  {
    var l := ["AAPL", "MSFT"];
    assert Join(l) == "AAPL,MSFT" by {
      assert Join(l) == l[0] + "," + Join(l[1..]);
      assert Join(l[1..]) == "MSFT";
    }
    assert Storable(l[0]) && Storable(l[1]);
    SaveThenLoad(l);
  }

  /**
   * LoadWatchlist. An absent file is created empty and loads as `[]`;
   * a present one is parsed. Only the creation can fail.
   */
  method LoadWatchlist(cfg: Config, disk: Disk) returns (r: Result<seq<string>, IoError>)
    modifies disk
    ensures var p := cfg.watchlistPath;
      if p in old(disk.files) then
        disk.files == old(disk.files) && r == Ok(ParseWatchlist(old(disk.files)[p]))
      else if p in disk.denied then
        disk.files == old(disk.files) && r == Err(CreateFileFailed(p))
      else
        disk.files == old(disk.files)[p := ""] && r == Ok([])
  {
    var p := cfg.watchlistPath;
    if p !in disk.files {
      if p in disk.denied {
        return Err(CreateFileFailed(p));
      }
      disk.files := disk.files[p := ""];
      return Ok([]);
    }
    var content := disk.files[p];
    if |content| == 0 {
      return Ok([]);
    }
    var parts := Split(content);
    var watchlist := parts;
    var i := 0;
    while i < |watchlist|
      invariant 0 <= i <= |watchlist| == |parts|
      invariant forall k :: 0 <= k < i ==> watchlist[k] == TrimSpace(parts[k])
      invariant forall k :: i <= k < |parts| ==> watchlist[k] == parts[k]
    {
      watchlist := watchlist[i := TrimSpace(watchlist[i])];
      i := i + 1;
    }
    TrimEachEntries(parts);
    assert watchlist == TrimEach(parts);
    return Ok(watchlist);
  }

  /** SaveWatchlist: the whole file is replaced by the comma-joined list. */
  method SaveWatchlist(cfg: Config, disk: Disk, watchlist: seq<string>) returns (r: Outcome<IoError>)
    modifies disk
    ensures var p := cfg.watchlistPath;
      if p in disk.denied then
        r == Fail(WriteFileFailed(p)) && disk.files == old(disk.files)
      else
        r == Pass && disk.files == old(disk.files)[p := Join(watchlist)]
  {
    var content := Join(watchlist);
    var p := cfg.watchlistPath;
    if p in disk.denied {
      return Fail(WriteFileFailed(p));
    }
    disk.files := disk.files[p := content];
    return Pass;
  }

  datatype MigrationPlan = NothingToMigrate | AlreadyMigrated | CopyLegacy(content: string)

  /** The decision MigrateFromLegacy takes before it writes anything. */
  function PlanMigration(files: map<string, string>, legacyPath: string, storePath: string): MigrationPlan {
    if legacyPath !in files then NothingToMigrate
    else if storePath in files then AlreadyMigrated
    else CopyLegacy(files[legacyPath])
  }

  /**
   * Migration copies only when the legacy file exists and the store does
   * not, it copies the legacy content verbatim, and it never overwrites an
   * existing store.
   */
  lemma PlanMigrationCases(files: map<string, string>, legacyPath: string, storePath: string)
    ensures var plan := PlanMigration(files, legacyPath, storePath);
      && (plan.CopyLegacy? <==> legacyPath in files && storePath !in files)
      && (plan.CopyLegacy? ==> plan.content == files[legacyPath])
      && (legacyPath !in files ==> plan == NothingToMigrate)
      && (storePath in files ==> !plan.CopyLegacy?)
  {
  }

  /** Once a copy has been written, a second migration does nothing. */
  lemma MigrationRunsOnce(files: map<string, string>, legacyPath: string, storePath: string)
    requires PlanMigration(files, legacyPath, storePath).CopyLegacy?
    ensures var after := files[storePath := files[legacyPath]];
      PlanMigration(after, legacyPath, storePath) == AlreadyMigrated
  {
  }

  /** MigrateFromLegacy: carries out the plan; only the write can fail. */
  method MigrateFromLegacy(cfg: Config, disk: Disk, legacyPath: string) returns (r: Outcome<IoError>)
    modifies disk
    ensures var p := cfg.watchlistPath;
      match PlanMigration(old(disk.files), legacyPath, p)
      case CopyLegacy(content) =>
        if p in disk.denied then
          r == Fail(WriteFileFailed(p)) && disk.files == old(disk.files)
        else
          r == Pass && disk.files == old(disk.files)[p := content]
      case _ => r == Pass && disk.files == old(disk.files)
  {
    var p := cfg.watchlistPath;
    if legacyPath !in disk.files {
      return Pass;
    }
    if p in disk.files {
      return Pass;
    }
    var content := disk.files[legacyPath];
    if p in disk.denied {
      return Fail(WriteFileFailed(p));
    }
    disk.files := disk.files[p := content];
    return Pass;
  }
}

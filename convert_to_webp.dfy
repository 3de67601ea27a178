/** The image conversion script: it collects every JPEG and PNG file under
    three image directories and converts each to WebP beside the original,
    skipping files whose WebP version exists and counting conversions,
    skips and failures. The file system and the image library are oracles:
    directory listings, the set of files present, and the set of inputs
    whose conversion throws. */
module ConvertToWebp {
  import opened Wrappers

  /** A file path: the directory, as its components, and the file name. */
  datatype Path = Path(dir: seq<string>, name: string)

  /** One entry of a directory listing: `isDirectory()`, `isFile()`, or
      neither (a link, a socket, ...). */
  datatype Entry = File(name: string) | Directory(name: string, entries: seq<Entry>) | Other(name: string)

  /** The three directories under the working directory. */
  function ImageDirs(cwd: seq<string>): (dirs: seq<seq<string>>)
    ensures |dirs| == 3
    ensures forall i :: 0 <= i < 3 ==> |dirs[i]| == |cwd| + 2 && dirs[i][..|cwd|] == cwd
  {
    [cwd + ["public", "desktop-background"], cwd + ["public", "mobile-background"], cwd + ["public", "Details"]]
  }

  const ValidInputExtensions: set<string> := {".jpg", ".jpeg", ".png", ".JPG", ".JPEG", ".PNG"}

  // ----- extensions and output paths -----

  /** The index of the last `c` in `s`. */
  function LastIndexOf(s: string, c: char): (r: Option<nat>)
    ensures r.Some? ==> r.value < |s| && s[r.value] == c && forall j :: r.value < j < |s| ==> s[j] != c
    ensures r.None? ==> c !in s
  {
    if s == [] then None
    else if s[|s| - 1] == c then Some(|s| - 1)
    else LastIndexOf(s[..|s| - 1], c)
  }

  /** `path.extname(name)`: from the last '.' to the end, or empty when there
      is no '.', when the only '.' that counts starts the name, or for "..". */
  function Extname(name: string): (ext: string)
    ensures ext != [] ==>
      && ext[0] == '.' && |ext| < |name| && ext == name[|name| - |ext|..]
      && forall j :: 1 <= j < |ext| ==> ext[j] != '.'
    ensures '.' !in name ==> ext == []
  {
    match LastIndexOf(name, '.')
    case None => ""
    case Some(k) => if k == 0 || name == ".." then "" else name[k..]
  }

  /** The extension of a name made of a non-empty stem and an extension that
      has one leading '.' and at least one more character. */
  lemma ExtnameOf(stem: string, ext: string)
    requires stem != [] && |ext| >= 2 && ext[0] == '.'
    requires forall j :: 1 <= j < |ext| ==> ext[j] != '.'
    ensures Extname(stem + ext) == ext
  {
    var name := stem + ext;
    var k := |stem|;
    assert name[k] == '.';
    var r := LastIndexOf(name, '.');
    assert forall j :: k < j < |name| ==> name[j] == ext[j - k] && ext[j - k] != '.';
    assert r == Some(k);
    assert name != "..";
    assert name[k..] == ext;
  }

  /** A file the script collects: one whose extension is exactly one of the
      six listed, upper and lower case being distinct. */
  predicate IsImageName(name: string) {
    Extname(name) in ValidInputExtensions
  }

  lemma MixedCaseRejected(stem: string)
    requires stem != []
    ensures Extname(stem + ".Jpg") == ".Jpg"
    ensures !IsImageName(stem + ".Jpg")
  {
    ExtnameOf(stem, ".Jpg");
  }

  lemma ListedAccepted(stem: string, ext: string)
    requires stem != [] && ext in ValidInputExtensions
    ensures IsImageName(stem + ext)
  {
    ExtnameOf(stem, ext);
  }

  /** `path.basename(name, path.extname(name))`. */
  function Stem(name: string): (stem: string)
    ensures stem + Extname(name) == name
  {
    name[..|name| - |Extname(name)|]
  }

  /** The WebP file written for an input: same directory, the stem plus ".webp". */
  function OutputPath(input: Path): (output: Path)
    ensures output.dir == input.dir
    ensures output.name == Stem(input.name) + ".webp"
  {
    Path(input.dir, Stem(input.name) + ".webp")
  }

  /** For an image named stem plus a listed extension, the output is the
      stem with ".webp" in the same directory. */
  lemma OutputOfImage(dir: seq<string>, stem: string, ext: string)
    requires stem != [] && ext in ValidInputExtensions
    ensures OutputPath(Path(dir, stem + ext)) == Path(dir, stem + ".webp")
  {
    ExtnameOf(stem, ext);
  }

  // ----- collecting the images -----

  /** The image files under a directory with the given entries, in the
      order the traversal finds them. */
  function ImageFiles(dir: seq<string>, entries: seq<Entry>): seq<Path>
    decreases entries, 1
  {
    if entries == [] then []
    else EntryFiles(dir, entries[0]) + ImageFiles(dir, entries[1..])
  }

  function EntryFiles(dir: seq<string>, entry: Entry): seq<Path>
    decreases entry, 0
  {
    match entry
    case File(name) => if IsImageName(name) then [Path(dir, name)] else []
    case Directory(name, sub) => ImageFiles(dir + [name], sub)
    case Other(_) => []
  }

  /** `p` lies in `dir` or one of its sub-directories. */
  predicate Under(p: Path, dir: seq<string>) {
    |p.dir| >= |dir| && p.dir[..|dir|] == dir
  }

  /** Every collected file lies under the directory traversed and has one of
      the listed extensions. */
  lemma {:induction false} ImageFilesUnder(dir: seq<string>, entries: seq<Entry>)
    ensures forall p :: p in ImageFiles(dir, entries) ==> Under(p, dir) && IsImageName(p.name)
    decreases entries, 1
  {
    if entries != [] {
      EntryFilesUnder(dir, entries[0]);
      ImageFilesUnder(dir, entries[1..]);
    }
  }

  lemma {:induction false} EntryFilesUnder(dir: seq<string>, entry: Entry)
    ensures forall p :: p in EntryFiles(dir, entry) ==> Under(p, dir) && IsImageName(p.name)
    decreases entry, 0
  {
    match entry
    case File(name) =>
    case Directory(name, sub) =>
      ImageFilesUnder(dir + [name], sub);
      forall p | p in ImageFiles(dir + [name], sub) ensures Under(p, dir) {
        assert p.dir[..|dir|] == p.dir[..|dir| + 1][..|dir|];
      }
    case Other(_) =>
  }

  lemma {:induction false} ImageFilesAppend(dir: seq<string>, a: seq<Entry>, b: seq<Entry>)
    ensures ImageFiles(dir, a + b) == ImageFiles(dir, a) + ImageFiles(dir, b)
  {
    if a == [] {
      assert a + b == b;
    } else {
      var ab := a + b;
      assert ab[0] == a[0] && ab[1..] == a[1..] + b;
      ImageFilesAppend(dir, a[1..], b);
      var head := EntryFiles(dir, a[0]);
      var rest, tail := ImageFiles(dir, a[1..]), ImageFiles(dir, b);
      assert ImageFiles(dir, ab) == head + (rest + tail);
      assert ImageFiles(dir, a) == head + rest;
      AppendAssociative(head, rest, tail);
    }
  }

  /** Helper for ImageFilesAppend: regrouping the three lists of files. */
  lemma AppendAssociative(x: seq<Path>, y: seq<Path>, z: seq<Path>)
    ensures x + (y + z) == (x + y) + z
  {
  }

  /** The files under the first `i + 1` entries: those under the first `i`,
      then those of entry `i`. */
  lemma ImageFilesSnoc(dir: seq<string>, entries: seq<Entry>, i: nat)
    requires i < |entries|
    ensures ImageFiles(dir, entries[..i + 1]) == ImageFiles(dir, entries[..i]) + EntryFiles(dir, entries[i])
  {
    var last := [entries[i]];
    assert last[1..] == [];
    assert ImageFiles(dir, last) == EntryFiles(dir, entries[i]) + ImageFiles(dir, []);
    ImageFilesAppend(dir, entries[..i], last);
    assert entries[..i + 1] == entries[..i] + last;
  }

  /** `traverse(currentDir)`: appends the image files under the directory to
      `files`, descending into sub-directories as it meets them. */
  method Traverse(dir: seq<string>, entries: seq<Entry>, files: seq<Path>) returns (out: seq<Path>)
    ensures out == files + ImageFiles(dir, entries)
    decreases entries
  {
    out := files;
    for i := 0 to |entries|
      invariant out == files + ImageFiles(dir, entries[..i])
    {
      var entry := entries[i];
      match entry {
        case Directory(name, sub) =>
          out := Traverse(dir + [name], sub, out);
        case File(name) =>
          if IsImageName(name) {
            out := out + [Path(dir, name)];
          }
        case Other(_) =>
      }
      ImageFilesSnoc(dir, entries, i);
    }
    assert entries[..|entries|] == entries;
  }

  /** `getAllImageFiles(dir)`. */
  method GetAllImageFiles(dir: seq<string>, entries: seq<Entry>) returns (files: seq<Path>)
    ensures files == ImageFiles(dir, entries)
  {
    files := Traverse(dir, entries, []);
  }

  // ----- the run -----

  /** `IMAGE_DIRS.filter(dir => fs.existsSync(dir))`; a directory exists
      when the listings have it. */
  function ExistingDirs(dirs: seq<seq<string>>, listings: map<seq<string>, seq<Entry>>): (existing: seq<seq<string>>)
    ensures forall i :: 0 <= i < |existing| ==> existing[i] in listings && existing[i] in dirs
    ensures forall d :: d in dirs && d in listings ==> d in existing
    ensures |existing| <= |dirs|
  {
    if dirs == [] then []
    else (if dirs[0] in listings then [dirs[0]] else []) + ExistingDirs(dirs[1..], listings)
  }

  /** All targets: the image files of each existing directory, in order. */
  function Collected(dirs: seq<seq<string>>, listings: map<seq<string>, seq<Entry>>): seq<Path>
    requires forall i :: 0 <= i < |dirs| ==> dirs[i] in listings
  {
    if dirs == [] then []
    else
      var last := dirs[|dirs| - 1];
      Collected(dirs[..|dirs| - 1], listings) + ImageFiles(last, listings[last])
  }

  /** Every target lies under one of the existing directories. */
  lemma {:induction false} CollectedUnderDirs(dirs: seq<seq<string>>, listings: map<seq<string>, seq<Entry>>, i: nat)
    requires forall k :: 0 <= k < |dirs| ==> dirs[k] in listings
    requires i < |Collected(dirs, listings)|
    ensures exists k :: 0 <= k < |dirs| && Under(Collected(dirs, listings)[i], dirs[k])
  {
    var n := |dirs| - 1;
    var front := Collected(dirs[..n], listings);
    if i < |front| {
      CollectedUnderDirs(dirs[..n], listings, i);
      var k :| 0 <= k < n && Under(front[i], dirs[..n][k]);
      assert dirs[..n][k] == dirs[k];
    } else {
      var files := ImageFiles(dirs[n], listings[dirs[n]]);
      ImageFilesUnder(dirs[n], listings[dirs[n]]);
      assert Collected(dirs, listings)[i] == files[i - |front|];
      assert files[i - |front|] in files;
    }
  }

  /** What became of one target. */
  datatype Disposition = Converted | Skipped | Failed

  /** The files present after the targets were processed: each conversion
      that succeeds adds its output. */
  function PresentAfter(targets: seq<Path>, present: set<Path>, failing: set<Path>): (after: set<Path>)
    ensures present <= after
  {
    if targets == [] then present
    else
      var n := |targets| - 1;
      var before := PresentAfter(targets[..n], present, failing);
      if OutputPath(targets[n]) !in before && targets[n] !in failing then before + {OutputPath(targets[n])}
      else before
  }

  /** The disposition of a target given the files present at its turn. */
  function Disposed(target: Path, present: set<Path>, failing: set<Path>): Disposition {
    if OutputPath(target) in present then Skipped
    else if target in failing then Failed
    else Converted
  }

  /** The dispositions of all targets, each judged at its own turn. */
  function Dispositions(targets: seq<Path>, present: set<Path>, failing: set<Path>): (ds: seq<Disposition>)
    ensures |ds| == |targets|
  {
    if targets == [] then []
    else
      var n := |targets| - 1;
      Dispositions(targets[..n], present, failing) + [Disposed(targets[n], PresentAfter(targets[..n], present, failing), failing)]
  }

  function CountOf(ds: seq<Disposition>, d: Disposition): nat {
    if ds == [] then 0
    else CountOf(ds[..|ds| - 1], d) + (if ds[|ds| - 1] == d then 1 else 0)
  }

  /** One more target: its disposition is judged against the files present
      after the ones before it. */
  lemma DispositionsStep(targets: seq<Path>, present: set<Path>, failing: set<Path>, i: nat)
    requires i < |targets|
    ensures var before := PresentAfter(targets[..i], present, failing);
      var d := Disposed(targets[i], before, failing);
      && Dispositions(targets[..i + 1], present, failing) == Dispositions(targets[..i], present, failing) + [d]
      && PresentAfter(targets[..i + 1], present, failing)
         == (if d == Converted then before + {OutputPath(targets[i])} else before)
  {
    assert targets[..i + 1][..i] == targets[..i];
  }

  lemma CountOfStep(ds: seq<Disposition>, d: Disposition, k: Disposition)
    ensures CountOf(ds + [d], k) == CountOf(ds, k) + (if d == k then 1 else 0)
  {
    assert (ds + [d])[..|ds|] == ds;
  }

  /** Every target is counted exactly once. */
  lemma {:induction false} CountsCoverTargets(ds: seq<Disposition>)
    ensures CountOf(ds, Converted) + CountOf(ds, Skipped) + CountOf(ds, Failed) == |ds|
  {
    if ds != [] {
      CountsCoverTargets(ds[..|ds| - 1]);
    }
  }

  lemma {:induction false} PresentGrows(targets: seq<Path>, present: set<Path>, failing: set<Path>, i: nat)
    requires i <= |targets|
    ensures PresentAfter(targets[..i], present, failing) <= PresentAfter(targets, present, failing)
    decreases |targets|
  {
    if i < |targets| {
      var n := |targets| - 1;
      PresentGrows(targets[..n], present, failing, i);
      assert targets[..n][..i] == targets[..i];
    } else {
      assert targets[..i] == targets;
    }
  }

  /** A target whose WebP file exists before the run is skipped, never
      converted. */
  lemma {:induction false} ExistingOutputSkipped(targets: seq<Path>, present: set<Path>, failing: set<Path>, i: nat)
    requires i < |targets| && OutputPath(targets[i]) in present
    ensures Dispositions(targets, present, failing)[i] == Skipped
    decreases |targets|
  {
    var n := |targets| - 1;
    var front := targets[..n];
    var before := PresentAfter(front, present, failing);
    assert Dispositions(targets, present, failing)
      == Dispositions(front, present, failing) + [Disposed(targets[n], before, failing)];
    if i < n {
      ExistingOutputSkipped(front, present, failing, i);
      assert front[i] == targets[i];
    } else {
      assert i == n && present <= before;
    }
  }

  /** How the run ends: exit code 1 when no directory exists, an early
      return without targets, or the totals. */
  datatype Outcome =
    | Exited(code: int)
    | NoTargets
    | Done(converted: nat, skipped: nat, failed: nat, total: nat)

  /** The collection step of `main()`: the image files of each existing
      directory, appended in turn. */
  method CollectTargets(existing: seq<seq<string>>, listings: map<seq<string>, seq<Entry>>) returns (targets: seq<Path>)
    requires forall i :: 0 <= i < |existing| ==> existing[i] in listings
    ensures targets == Collected(existing, listings)
  {
    targets := [];
    for k := 0 to |existing|
      invariant targets == Collected(existing[..k], listings)
    {
      var files := GetAllImageFiles(existing[k], listings[existing[k]]);
      assert existing[..k + 1][..k] == existing[..k];
      targets := targets + files;
    }
    assert existing[..|existing|] == existing;
  }

  /** The conversion loop of `main()`: each target is skipped when its
      output is present (including one written earlier in the loop), fails
      when the image library throws, and is converted otherwise. */
  method ConvertTargets(targets: seq<Path>, present: set<Path>, failing: set<Path>)
    returns (converted: nat, skipped: nat, failed: nat, written: set<Path>)
    ensures var ds := Dispositions(targets, present, failing);
      && converted == CountOf(ds, Converted) && skipped == CountOf(ds, Skipped) && failed == CountOf(ds, Failed)
    ensures converted + skipped + failed == |targets|
    ensures written == PresentAfter(targets, present, failing)
  {
    converted, skipped, failed := 0, 0, 0;
    written := present;
    for i := 0 to |targets|
      invariant written == PresentAfter(targets[..i], present, failing)
      invariant converted == CountOf(Dispositions(targets[..i], present, failing), Converted)
      invariant skipped == CountOf(Dispositions(targets[..i], present, failing), Skipped)
      invariant failed == CountOf(Dispositions(targets[..i], present, failing), Failed)
    {
      var file := targets[i];
      DispositionsStep(targets, present, failing, i);
      var ds := Dispositions(targets[..i], present, failing);
      CountOfStep(ds, Disposed(file, written, failing), Converted);
      CountOfStep(ds, Disposed(file, written, failing), Skipped);
      CountOfStep(ds, Disposed(file, written, failing), Failed);
      var output := OutputPath(file);
      if output in written {
        skipped := skipped + 1;
      } else if file in failing {
        failed := failed + 1;
      } else {
        written := written + {output};
        converted := converted + 1;
      }
    }
    assert targets[..|targets|] == targets;
    CountsCoverTargets(Dispositions(targets, present, failing));
  }

  /** `main()`. `listings` holds each existing directory's entries,
      `present` the files present at the start, and `failing` the inputs
      whose conversion throws; `written` is the set of files present at the
      end. */
  method ConvertAll(cwd: seq<string>, listings: map<seq<string>, seq<Entry>>, present: set<Path>, failing: set<Path>)
    returns (outcome: Outcome, written: set<Path>)
    ensures var existing := ExistingDirs(ImageDirs(cwd), listings);
      existing == [] ==> outcome == Exited(1) && written == present
    ensures var existing := ExistingDirs(ImageDirs(cwd), listings);
      existing != [] ==>
        var targets := Collected(existing, listings);
        && (targets == [] ==> outcome == NoTargets && written == present)
        && (targets != [] ==>
              var ds := Dispositions(targets, present, failing);
              && outcome == Done(CountOf(ds, Converted), CountOf(ds, Skipped), CountOf(ds, Failed), |targets|)
              && outcome.converted + outcome.skipped + outcome.failed == outcome.total
              && written == PresentAfter(targets, present, failing))
  {
    var existing := ExistingDirs(ImageDirs(cwd), listings);
    if |existing| == 0 {
      return Exited(1), present;
    }
    var targets := CollectTargets(existing, listings);
    if |targets| == 0 {
      return NoTargets, present;
    }
    var converted, skipped, failed;
    converted, skipped, failed, written := ConvertTargets(targets, present, failing);
    outcome := Done(converted, skipped, failed, |targets|);
  }
}

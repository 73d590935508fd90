/**
 * Locating and listing the package templates (src/util/templates.ts). The
 * templates directory is searched for next to the module at load time; the
 * templates of a target are the `.hbs` files below `<templates>/<target>`,
 * named relative to that directory.
 */
module Templates {
  import opened Wrappers
  import opened Paths
  import opened FileTree
  import opened Walk

  /** The error thrown when no candidate exists; it lists every path searched, in order. */
  datatype TemplatesError = TemplatesDirNotFound(searched: seq<string>)

  /** `../../templates`, `../templates`, `templates`, each joined onto the module's directory. */
  function TemplateCandidates(moduleDir: Path): seq<Path> {
    [Resolve(moduleDir, ["..", "..", "templates"]), Resolve(moduleDir, ["..", "templates"]), Resolve(moduleDir, ["templates"])]
  }

  /**
   * The three candidates are the `templates` directories of the module's
   * grandparent, parent and own directory.
   */
  lemma TemplateCandidatesAt(moduleDir: Path)
    requires |moduleDir| >= 2
    ensures TemplateCandidates(moduleDir) ==
      [moduleDir[..|moduleDir| - 2] + ["templates"], moduleDir[..|moduleDir| - 1] + ["templates"], moduleDir + ["templates"]]
  {
    ResolveClimbs(moduleDir, 2, ["templates"]);
    ResolveClimbs(moduleDir, 1, ["templates"]);
    assert Ups(2) + ["templates"] == ["..", "..", "templates"];
    assert Ups(1) + ["templates"] == ["..", "templates"];
    ResolveDescends(moduleDir, ["templates"]);
    ResolveDescends(moduleDir[..|moduleDir| - 2], ["templates"]);
    ResolveDescends(moduleDir[..|moduleDir| - 1], ["templates"]);
  }

  /** `resolveTemplatesDir()`: the first candidate that exists. */
  function ResolveTemplatesDir(root: Node, moduleDir: Path): Result<Path, TemplatesError> {
    var candidates := TemplateCandidates(moduleDir);
    match FirstExisting(root, candidates)
    case Some(i) => Ok(candidates[i])
    case None => Err(TemplatesDirNotFound([Absolute(candidates[0]), Absolute(candidates[1]), Absolute(candidates[2])]))
  }

  /**
   * The search takes the earliest existing candidate, and fails, naming all
   * three candidates, exactly when none exists.
   */
  lemma TemplatesDirSearch(root: Node, moduleDir: Path)
    ensures var c, r := TemplateCandidates(moduleDir), ResolveTemplatesDir(root, moduleDir);
      && (Exists(root, c[0]) ==> r == Ok(c[0]))
      && (!Exists(root, c[0]) && Exists(root, c[1]) ==> r == Ok(c[1]))
      && (!Exists(root, c[0]) && !Exists(root, c[1]) && Exists(root, c[2]) ==> r == Ok(c[2]))
      && (r.Ok? ==> r.value in c && Exists(root, r.value))
      && (r.Err? <==> forall k :: 0 <= k < 3 ==> !Exists(root, c[k]))
      && (r.Err? ==> r.error.searched == [Absolute(c[0]), Absolute(c[1]), Absolute(c[2])])
  {
    FirstExistingSpec(root, TemplateCandidates(moduleDir));
  }

  /** `Path.join(templatesDir, target)`. */
  function TargetDir(templatesDir: Path, target: string): Path {
    Resolve(templatesDir, Segments(target))
  }

  /** The `.hbs` files among `files`, each named relative to `dir`. */
  function RelativeNames(dir: Path, files: seq<Path>): seq<string> {
    var hbs := WithSuffix(files, ".hbs");
    seq(|hbs|, i requires 0 <= i < |hbs| => Join(Relative(dir, hbs[i])))
  }

  /** What `listTemplates(target)` returns, or the error the walk throws. */
  function TemplateList(root: Node, templatesDir: Path, target: string): Result<seq<string>, FsError> {
    var dir := TargetDir(templatesDir, target);
    match Listing(root, dir)
    case Err(e) => Err(e)
    case Ok(files) => Ok(RelativeNames(dir, files))
  }

  /**
   * `listTemplates(target)`: walk the target's directory, keep the `.hbs`
   * files, name each relative to the directory. A missing directory lists
   * nothing.
   */
  method ListTemplates(root: Node, templatesDir: Path, target: string) returns (r: Result<seq<string>, FsError>)
    ensures r == TemplateList(root, templatesDir, target)
    ensures !Exists(root, TargetDir(templatesDir, target)) ==> r == Ok([])
  {
    var dir := TargetDir(templatesDir, target);
    var listing := WalkDir(root, dir);
    if listing.Err? {
      return Err(listing.error);
    }
    if !Exists(root, dir) {
      assert listing.value == [];
      assert WithSuffix(listing.value, ".hbs") == [];
      assert RelativeNames(dir, listing.value) == [];
    }
    return Ok(RelativeNames(dir, listing.value));
  }

  /**
   * In a real directory tree, each listed name joined back onto the target's
   * directory is a `.hbs` file below it.
   */
  lemma TemplateListSound(root: Node, templatesDir: Path, target: string, i: nat)
    requires WellFormed(root)
    requires TemplateList(root, templatesDir, target).Ok? && i < |TemplateList(root, templatesDir, target).value|
    ensures var dir, name := TargetDir(templatesDir, target), TemplateList(root, templatesDir, target).value[i];
      var f := Resolve(dir, Segments(name));
      IsFileAt(root, f) && IsPrefix(dir, f) && f != dir && EndsWith(Absolute(f), ".hbs") &&
      f == dir + Segments(name)
  {
    var dir := TargetDir(templatesDir, target);
    var files := Listing(root, dir).value;
    ListingSpec(root, dir, files);
    var hbs := WithSuffix(files, ".hbs");
    var f := hbs[i];
    assert f in hbs;
    WellFormedNames(root, f);
    RelativeSegments(dir, f);
    SegmentsJoin(Relative(dir, f));
    ResolveRelative(dir, f);
    RelativeUnder(dir, f);
  }

  /** Every `.hbs` file below the target's directory is listed. */
  lemma TemplateListComplete(root: Node, templatesDir: Path, target: string, f: Path)
    requires TemplateList(root, templatesDir, target).Ok?
    requires var dir := TargetDir(templatesDir, target);
      IsPrefix(dir, f) && f != dir && IsFileAt(root, f) && EndsWith(Absolute(f), ".hbs")
    ensures Join(f[|TargetDir(templatesDir, target)|..]) in TemplateList(root, templatesDir, target).value
  {
    var dir := TargetDir(templatesDir, target);
    var files := Listing(root, dir).value;
    ListingSpec(root, dir, files);
    var hbs := WithSuffix(files, ".hbs");
    var i :| 0 <= i < |hbs| && hbs[i] == f;
    RelativeUnder(dir, f);
    assert RelativeNames(dir, files)[i] == Join(f[|dir|..]);
  }
}

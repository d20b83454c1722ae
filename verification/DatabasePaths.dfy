/** From a database name to its cache key and to the path it is opened on. Paths follow the Unix rules. */
module DatabasePaths {
  import opened Prelude
  import opened Text

  datatype RuntimeConfig = RuntimeConfig(defaultPath: string, root: Option<string>)

  datatype PathError = HasSeparator(name: string) | NotOneSegment(name: string) | NoRoot(name: string)

  datatype Component = RootDir | CurDir | ParentDir | Normal(segment: string)

  // ---------------------------------------------------------------- names

  /** The name that counts: trimmed, and none at all when nothing is left. */
  function ResolvedName(name: Option<string>): Option<string> {
    match name
    case None => None
    case Some(n) => if Trim(n) == "" then None else Some(Trim(n))
  }

  const DEFAULT_KEY := "default"

  function DatabaseKey(name: Option<string>): string {
    match ResolvedName(name)
    case None => DEFAULT_KEY
    case Some(n) => n
  }

  // ---------------------------------------------------------------- paths

  /** The text between two slashes. */
  datatype Segment = Segment(text: string)

  /** The segments when one more character is read. */
  function Extend(segments: seq<Segment>, c: char): (longer: seq<Segment>)
    requires |segments| > 0
    ensures |longer| > 0
  {
    var n := |segments| - 1;
    if c == '/' then segments + [Segment("")] else segments[..n] + [Segment(segments[n].text + [c])]
  }

  function Split(path: string): (segments: seq<Segment>)
    ensures |segments| > 0
  {
    if path == "" then [Segment("")] else Extend(Split(path[..|path| - 1]), path[|path| - 1])
  }

  function Part(index: nat, segment: Segment): seq<Component> {
    if segment.text == "" then []
    else if segment.text == "." then if index == 0 then [CurDir] else []
    else if segment.text == ".." then [ParentDir]
    else [Normal(segment.text)]
  }

  function Parts(segments: seq<Segment>): seq<Component> {
    if |segments| == 0 then []
    else Parts(segments[..|segments| - 1]) + Part(|segments| - 1, segments[|segments| - 1])
  }

  /** `Path::components`. */
  function Components(path: string): seq<Component> {
    (if |path| > 0 && path[0] == '/' then [RootDir] else []) + Parts(Split(path))
  }

  /** `PathBuf::join`. */
  function JoinPath(root: string, name: string): string {
    if |name| > 0 && name[0] == '/' then name
    else if root == "" || root[|root| - 1] == '/' then root + name
    else root + "/" + name
  }

  predicate SchemeAt(s: string, k: int) {
    0 <= k <= |s| - 3 && s[k] == ':' && s[k + 1] == '/' && s[k + 2] == '/'
  }

  predicate LooksLikeUri(s: string) {
    exists k :: 0 <= k <= |s| - 3 && SchemeAt(s, k)
  }

  function TrimEndSlashes(s: string): string {
    if |s| > 0 && s[|s| - 1] == '/' then TrimEndSlashes(s[..|s| - 1]) else s
  }

  function JoinRoot(root: string, name: string): string {
    if LooksLikeUri(root) then TrimEndSlashes(root) + "/" + name else JoinPath(root, name)
  }

  function ValidateName(name: string): Result<(), PathError> {
    if '/' in name || '\\' in name then Err(HasSeparator(name))
    else
      var components := Components(name);
      if |components| == 1 && components[0].Normal? then Ok(()) else Err(NotOneSegment(name))
  }

  function DatabasePath(cfg: RuntimeConfig, name: Option<string>): Result<string, PathError> {
    match ResolvedName(name)
    case None => Ok(cfg.defaultPath)
    case Some(n) =>
      var _ :- ValidateName(n);
      if cfg.root.None? then Err(NoRoot(n)) else Ok(JoinRoot(cfg.root.value, n))
  }

  // ---------------------------------------------------------------- splitting and joining

  lemma SplitOneMore(front: string, c: char)
    ensures Split(front + [c]) == Extend(Split(front), c)
  {
    assert (front + [c])[..|front|] == front;
  }

  lemma SplitStaysPlain(front: string, c: char)
    requires c != '/' && Split(front) == [Segment(front)]
    ensures Split(front + [c]) == [Segment(front + [c])]
  {
    SplitOneMore(front, c);
  }

  lemma {:induction false} SplitPlain(name: string)
    requires '/' !in name
    ensures Split(name) == [Segment(name)]
  {
    if name == "" {
      return;
    }
    var front, c := name[..|name| - 1], name[|name| - 1];
    assert front + [c] == name;
    SplitPlain(front);
    SplitStaysPlain(front, c);
  }

  lemma ExtendBehind(front: seq<Segment>, segments: seq<Segment>, c: char)
    requires |segments| > 0
    ensures Extend(front + segments, c) == front + Extend(segments, c)
  {
    assert (front + segments)[..|front + segments| - 1] == front + segments[..|segments| - 1];
  }

  lemma {:induction false} SplitJoined(a: string, b: string)
    ensures Split(a + "/" + b) == Split(a) + Split(b)
  {
    var whole := a + "/" + b;
    if b == "" {
      assert whole[..|whole| - 1] == a;
      assert Split(whole) == Extend(Split(a), '/');
    } else {
      var front := b[..|b| - 1];
      assert whole[..|whole| - 1] == a + "/" + front;
      SplitJoined(a, front);
      ExtendBehind(Split(a), Split(front), b[|b| - 1]);
    }
  }

  /** Accepted names are those of one ordinary path segment. */
  lemma AcceptedNames(name: string)
    ensures ValidateName(name).Ok? <==> name !in ["", ".", ".."] && '/' !in name && '\\' !in name
  {
    if '/' !in name {
      SegmentComponents(name);
    }
  }

  lemma SegmentComponents(name: string)
    requires '/' !in name
    ensures Components(name) == Part(0, Segment(name))
  {
    SplitPlain(name);
    PartsStep([], Segment(name));
    assert [] + [Segment(name)] == [Segment(name)];
  }

  lemma PartsStep(segments: seq<Segment>, segment: Segment)
    ensures Parts(segments + [segment]) == Parts(segments) + Part(|segments|, segment)
  {
    assert (segments + [segment])[..|segments|] == segments;
  }

  lemma PartsOfChild(segments: seq<Segment>, name: string)
    requires name !in ["", ".", ".."]
    ensures Parts(segments + [Segment(name)]) == Parts(segments) + [Normal(name)]
  {
    PartsStep(segments, Segment(name));
  }

  lemma PartsOfTrailingSlash(segments: seq<Segment>)
    ensures Parts(segments + [Segment("")]) == Parts(segments)
  {
    PartsStep(segments, Segment(""));
  }

  lemma PartsOfJoined(a: string, name: string)
    requires name !in ["", ".", ".."] && '/' !in name
    ensures Parts(Split(a + "/" + name)) == Parts(Split(a)) + [Normal(name)]
  {
    SplitPlain(name);
    SplitJoined(a, name);
    PartsOfChild(Split(a), name);
  }

  lemma PartsOfSlash(a: string)
    ensures Parts(Split(a + "/")) == Parts(Split(a))
  {
    SplitJoined(a, "");
    assert a + "/" + "" == a + "/";
    PartsOfTrailingSlash(Split(a));
  }

  lemma ChildOfNone(name: string)
    requires name !in ["", ".", ".."] && '/' !in name
    ensures Components(JoinPath("", name)) == Components("") + [Normal(name)]
  {
    SegmentComponents("");
    SegmentComponents(name);
    assert JoinPath("", name) == name;
  }

  lemma ComponentsOfChild(root: string, path: string, name: string)
    requires |root| > 0 && |path| > 0 && path[0] == root[0]
    requires Parts(Split(path)) == Parts(Split(root)) + [Normal(name)]
    ensures Components(path) == Components(root) + [Normal(name)]
  {
  }

  lemma ChildOfSlashed(a: string, name: string)
    requires name !in ["", ".", ".."] && '/' !in name
    ensures Components(a + "/" + name) == Components(a + "/") + [Normal(name)]
  {
    PartsOfJoined(a, name);
    PartsOfSlash(a);
    ComponentsOfChild(a + "/", a + "/" + name, name);
  }

  lemma ChildOfPlain(root: string, name: string)
    requires root != "" && name !in ["", ".", ".."] && '/' !in name
    ensures Components(root + "/" + name) == Components(root) + [Normal(name)]
  {
    PartsOfJoined(root, name);
    ComponentsOfChild(root, root + "/" + name, name);
  }

  /** An accepted name under a local root is a direct child of that root. */
  lemma LocalChild(root: string, name: string)
    requires ValidateName(name).Ok? && !LooksLikeUri(root)
    ensures Components(JoinRoot(root, name)) == Components(root) + [Normal(name)]
  {
    AcceptedNames(name);
    if root == "" {
      ChildOfNone(name);
    } else if root[|root| - 1] == '/' {
      assert root == root[..|root| - 1] + "/";
      ChildOfSlashed(root[..|root| - 1], name);
      assert JoinRoot(root, name) == root + name;
    } else {
      ChildOfPlain(root, name);
    }
  }

  /** Under a URI root too, the name is one more segment after those of the trimmed root. */
  lemma UriChild(root: string, name: string)
    requires ValidateName(name).Ok? && LooksLikeUri(root)
    ensures Split(JoinRoot(root, name)) == Split(TrimEndSlashes(root)) + [Segment(name)]
  {
    AcceptedNames(name);
    SplitPlain(name);
    SplitJoined(TrimEndSlashes(root), name);
  }

  /** Different accepted names have different paths. */
  lemma DistinctNamesDistinctPaths(root: string, a: string, b: string)
    requires ValidateName(a).Ok? && ValidateName(b).Ok? && a != b
    ensures JoinRoot(root, a) != JoinRoot(root, b)
  {
    AcceptedNames(a);
    AcceptedNames(b);
    if LooksLikeUri(root) {
      UriChild(root, a);
      UriChild(root, b);
      assert Split(JoinRoot(root, a))[|Split(TrimEndSlashes(root))|] == Segment(a);
      assert Split(JoinRoot(root, b))[|Split(TrimEndSlashes(root))|] == Segment(b);
    } else {
      LocalChild(root, a);
      LocalChild(root, b);
      assert Components(JoinRoot(root, a))[|Components(root)|] == Normal(a);
      assert Components(JoinRoot(root, b))[|Components(root)|] == Normal(b);
    }
  }

  // ---------------------------------------------------------------- URI or local

  lemma {:induction false} TrimmedSlashes(s: string)
    ensures TrimEndSlashes(s) <= s
    ensures |TrimEndSlashes(s)| > 0 ==> TrimEndSlashes(s)[|TrimEndSlashes(s)| - 1] != '/'
    ensures forall j :: |TrimEndSlashes(s)| <= j < |s| ==> s[j] == '/'
  {
    if |s| > 0 && s[|s| - 1] == '/' {
      TrimmedSlashes(s[..|s| - 1]);
    }
  }

  /** Something other than slashes follows the scheme. */
  ghost predicate HasAuthority(root: string) {
    exists k, j :: SchemeAt(root, k) && k + 3 <= j < |root| && root[j] != '/'
  }

  lemma UriFromAuthority(root: string, name: string)
    requires LooksLikeUri(root) && HasAuthority(root)
    ensures LooksLikeUri(JoinRoot(root, name))
  {
    TrimmedSlashes(root);
    var k, j :| SchemeAt(root, k) && k + 3 <= j < |root| && root[j] != '/';
    assert j < |TrimEndSlashes(root)|;
    assert SchemeAt(JoinRoot(root, name), k);
  }

  lemma AuthorityFromUri(root: string, name: string, k: int)
    requires LooksLikeUri(root) && '/' !in name && SchemeAt(JoinRoot(root, name), k)
    ensures HasAuthority(root)
  {
    TrimmedSlashes(root);
    var t, path := TrimEndSlashes(root), JoinRoot(root, name);
    assert forall j :: |t| < j < |path| ==> path[j] == name[j - |t| - 1];
    assert path[k + 2] == '/' && path[k + 1] == '/';
    assert k + 2 <= |t|;
    assert t[|t| - 1] == path[|t| - 1] != '/';
    assert k + 3 <= |t| - 1;
    assert SchemeAt(root, k) && root[|t| - 1] != '/';
  }

  /**
   A root that looks like a URI gives paths that do exactly when something follows its "://".
   The root "s3://" alone gives "s3:/name", which is opened as a local directory.
   */
  lemma UriRootGivesUri(root: string, name: string)
    requires LooksLikeUri(root) && ValidateName(name).Ok?
    ensures LooksLikeUri(JoinRoot(root, name)) <==> HasAuthority(root)
  {
    AcceptedNames(name);
    if HasAuthority(root) { UriFromAuthority(root, name); }
    if LooksLikeUri(JoinRoot(root, name)) {
      var k :| 0 <= k <= |JoinRoot(root, name)| - 3 && SchemeAt(JoinRoot(root, name), k);
      AuthorityFromUri(root, name, k);
    }
  }

  /** A local root gives local paths. */
  lemma LocalRootGivesLocal(root: string, name: string)
    requires !LooksLikeUri(root) && ValidateName(name).Ok?
    ensures !LooksLikeUri(JoinRoot(root, name))
  {
    AcceptedNames(name);
    var path := JoinRoot(root, name);
    assert forall j :: |path| - |name| <= j < |path| ==> path[j] in name;
    forall k | 0 <= k <= |path| - 3
      ensures !SchemeAt(path, k)
    {
      if k <= |root| - 3 { assert !SchemeAt(root, k); }
    }
  }

  // ---------------------------------------------------------------- what a name resolves to

  ghost predicate Blank(name: Option<string>) {
    name.None? || Trim(name.value) == ""
  }

  /** One ordinary path segment. */
  predicate IsSegment(name: string) {
    name !in ["", ".", ".."] && '/' !in name && '\\' !in name
  }

  /** The path is that of the child `name` of the root: one component, or one segment of a URI, more. */
  ghost predicate IsChild(root: string, name: string, path: string) {
    if LooksLikeUri(root) then Split(path) == Split(TrimEndSlashes(root)) + [Segment(name)]
    else Components(path) == Components(root) + [Normal(name)]
  }

  ghost predicate Resolvable(cfg: RuntimeConfig, name: Option<string>) {
    Blank(name) || (IsSegment(Trim(name.value)) && cfg.root.Some?)
  }

  ghost predicate ResolvesTo(cfg: RuntimeConfig, name: Option<string>, path: string) {
    && Resolvable(cfg, name)
    && if Blank(name) then path == cfg.defaultPath else IsChild(cfg.root.value, Trim(name.value), path)
  }

  ghost predicate NotResolved(cfg: RuntimeConfig, name: Option<string>, e: PathError) {
    && !Blank(name)
    && var n := Trim(name.value);
       if '/' in n || '\\' in n then e == HasSeparator(n)
       else if !IsSegment(n) then e == NotOneSegment(n)
       else cfg.root.None? && e == NoRoot(n)
  }

  /** Which names resolve, to what, and what is wrong with the others. */
  lemma PathResolves(cfg: RuntimeConfig, name: Option<string>)
    ensures DatabasePath(cfg, name).Ok? <==> Resolvable(cfg, name)
    ensures match DatabasePath(cfg, name)
            case Ok(path) => ResolvesTo(cfg, name, path)
            case Err(e) => NotResolved(cfg, name, e)
  {
    if !Blank(name) {
      var n := Trim(name.value);
      AcceptedNames(n);
      if IsSegment(n) && cfg.root.Some? {
        if LooksLikeUri(cfg.root.value) { UriChild(cfg.root.value, n); } else { LocalChild(cfg.root.value, n); }
      }
    }
  }

  /** Two children of one root are at different paths, whatever the paths look like. */
  lemma ChildrenDiffer(root: string, a: string, b: string, pathA: string, pathB: string)
    requires a != b && IsChild(root, a, pathA) && IsChild(root, b, pathB)
    ensures pathA != pathB
  {
    if LooksLikeUri(root) {
      assert Split(pathA)[|Split(TrimEndSlashes(root))|] == Segment(a);
      assert Split(pathB)[|Split(TrimEndSlashes(root))|] == Segment(b);
    } else {
      assert Components(pathA)[|Components(root)|] == Normal(a);
      assert Components(pathB)[|Components(root)|] == Normal(b);
    }
  }

  /** Names that trim to different texts resolve to different paths. */
  lemma DifferentNamesDifferentPaths(cfg: RuntimeConfig, a: Option<string>, b: Option<string>)
    requires !Blank(a) && !Blank(b) && Trim(a.value) != Trim(b.value)
    requires Resolvable(cfg, a) && Resolvable(cfg, b)
    ensures DatabasePath(cfg, a).Ok? && DatabasePath(cfg, b).Ok?
    ensures DatabasePath(cfg, a).value != DatabasePath(cfg, b).value
  {
    PathResolves(cfg, a);
    PathResolves(cfg, b);
    ChildrenDiffer(cfg.root.value, Trim(a.value), Trim(b.value),
                   DatabasePath(cfg, a).value, DatabasePath(cfg, b).value);
  }

  /** Keys tell names apart, but for the blank name against "default". */
  lemma KeysTellNamesApart(a: Option<string>, b: Option<string>)
    ensures !Blank(a) ==> DatabaseKey(a) == Trim(a.value)
    ensures Blank(a) ==> DatabaseKey(a) == "default"
    ensures DatabaseKey(a) == DatabaseKey(b) <==>
              || (Blank(a) && Blank(b))
              || (!Blank(a) && !Blank(b) && Trim(a.value) == Trim(b.value))
              || (Blank(a) && !Blank(b) && Trim(b.value) == "default")
              || (!Blank(a) && Blank(b) && Trim(a.value) == "default")
  {
  }

  // ---------------------------------------------------------------- keys against paths

  lemma PlainTrim(n: string)
    requires n == "default"
    ensures Trim(n) == n
  {
  }

  lemma DefaultIsAccepted()
    ensures ValidateName(DEFAULT_KEY).Ok? && ResolvedName(Some(DEFAULT_KEY)) == Some(DEFAULT_KEY)
  {
    AcceptedNames(DEFAULT_KEY);
    PlainTrim(DEFAULT_KEY);
  }

  /** No child called "default", or the child is the default database itself. */
  predicate DefaultIsUnambiguous(cfg: RuntimeConfig) {
    cfg.root.Some? ==> JoinRoot(cfg.root.value, DEFAULT_KEY) == cfg.defaultPath
  }

  /** One key stands for one path, except for the blank name and the literal name "default". */
  lemma OneKeyOnePath(cfg: RuntimeConfig, a: Option<string>, b: Option<string>)
    requires DatabaseKey(a) == DatabaseKey(b)
    requires DatabasePath(cfg, a).Ok? && DatabasePath(cfg, b).Ok?
    ensures DatabasePath(cfg, a) == DatabasePath(cfg, b)
            || (!DefaultIsUnambiguous(cfg)
                && {ResolvedName(a), ResolvedName(b)} == {None, Some(DEFAULT_KEY)})
  {
  }

  /** Keys agree with paths for all names exactly when the default database is unambiguous. */
  lemma KeysAgreeWithPaths(cfg: RuntimeConfig)
    ensures (forall a, b ::
               DatabaseKey(a) == DatabaseKey(b) && DatabasePath(cfg, a).Ok? && DatabasePath(cfg, b).Ok? ==>
                 DatabasePath(cfg, a) == DatabasePath(cfg, b))
            <==> DefaultIsUnambiguous(cfg)
  {
    if DefaultIsUnambiguous(cfg) {
      forall a, b | DatabaseKey(a) == DatabaseKey(b) && DatabasePath(cfg, a).Ok? && DatabasePath(cfg, b).Ok?
        ensures DatabasePath(cfg, a) == DatabasePath(cfg, b)
      {
        OneKeyOnePath(cfg, a, b);
      }
    } else {
      DefaultIsAccepted();
      assert DatabaseKey(None) == DatabaseKey(Some(DEFAULT_KEY));
      assert DatabasePath(cfg, None) != DatabasePath(cfg, Some(DEFAULT_KEY));
    }
  }
}

/**
 * The tree rewriting of `materializePublicationCommit`: base tree and file patches to tree request and
 * predicted tree.
 */
module TreeRewrite {
  import opened Wrappers
  import opened PatchFormat
  import opened HunkApplication
  import opened Sequences

  /** A blob of a tree, at a path. */
  datatype Entry = Entry(mode: string, sha: string)

  /** The blobs of a tree by path. */
  type Blobs = map<string, Entry>

  /** One entry of the tree request; a null sha removes the path. */
  datatype TreeOp = Put(path: string, mode: string, sha: string) | Remove(path: string)

  /** Blob creation and reading on the remote. */
  datatype BlobStore = BlobStore(sha: string -> string, content: string -> string) {
    /** What is read back under the name of a created blob is what was created. */
    ghost predicate Faithful() { forall c: string :: content(sha(c)) == c }
  }

  datatype RewriteError = DeletesAbsent | AddsExisting | ModifiesAbsent | NotApplicable(reason: ApplyError)

  datatype Rewritten = Rewritten(expected: Blobs, input: seq<TreeOp>)

  /** The base entry a patch starts from; an absent or empty old path has none. */
  function BaseEntry(base: Blobs, f: FilePatch): Option<Entry> {
    if f.oldPath.Some? && f.oldPath.value != "" && f.oldPath.value in base then Some(base[f.oldPath.value]) else None
  }

  /** The tree operations of one file patch. */
  function FileOps(store: BlobStore, base: Blobs, f: FilePatch): Result<seq<TreeOp>, RewriteError> {
    var entry := BaseEntry(base, f);
    if f.change == Delete then
      if entry.None? then Err(DeletesAbsent) else Ok([Remove(f.oldPath.value)])
    else if f.change == Add && f.Path() in base then Err(AddsExisting)
    else if (f.change == Modify || f.change == Rename) && entry.None? then Err(ModifiesAbsent)
    else
      match Apply(if entry.Some? then store.content(entry.value.sha) else "", f.hunks)
      case Err(e) => Err(NotApplicable(e))
      case Ok(content) =>
        var put := Put(f.Path(), if entry.Some? then entry.value.mode else "100644", store.sha(content));
        Ok([put] + (if f.change == Rename && f.oldPath.Some?
            && f.oldPath.value != "" then [Remove(f.oldPath.value)] else []))
  }

  function ApplyOp(blobs: Blobs, op: TreeOp): Blobs {
    match op
    case Put(path, mode, sha) => blobs[path := Entry(mode, sha)]
    case Remove(path) => blobs - {path}
  }

  /** What the remote makes of a tree request on top of a base tree. */
  function Replay(blobs: Blobs, ops: seq<TreeOp>): Blobs
    decreases ops
  {
    if ops == [] then blobs else Replay(ApplyOp(blobs, ops[0]), ops[1..])
  }

  /** The request of a list of patches: that of each one, computed from the base alone. */
  function Request(store: BlobStore, base: Blobs, files: seq<FilePatch>): Result<seq<TreeOp>, RewriteError> {
    if files == [] then Ok([])
    else
      match FileOps(store, base, files[0])
      case Err(e) => Err(e)
      case Ok(ops) =>
        match Request(store, base, files[1..])
        case Err(e) => Err(e)
        case Ok(later) => Ok(ops + later)
  }

  lemma {:induction false} ReplayAppend(blobs: Blobs, a: seq<TreeOp>, b: seq<TreeOp>)
    ensures Replay(blobs, a + b) == Replay(Replay(blobs, a), b)
    decreases a
  {
    if a == [] {
      assert a + b == b;
    } else {
      assert (a + b)[1..] == a[1..] + b;
      ReplayAppend(ApplyOp(blobs, a[0]), a[1..], b);
    }
  }

  lemma {:induction false} RequestAppend(store: BlobStore, base: Blobs, a: seq<FilePatch>, b: seq<FilePatch>)
    ensures var whole, first, second := Request(store, base, a + b), Request(store, base, a), Request(store, base, b);
            && (whole.Ok? <==> first.Ok? && second.Ok?)
            && (whole.Ok? ==> whole.value == first.value + second.value)
            && (first.Err? ==> whole == first) && (first.Ok? && second.Err? ==> whole == second)
  {
    hide FileOps;
    if a == [] {
      assert a + b == b;
    } else {
      assert (a + b)[1..] == a[1..] + b;
      RequestAppend(store, base, a[1..], b);
    }
  }

  lemma RequestOne(store: BlobStore, base: Blobs, f: FilePatch)
    ensures Request(store, base, [f]) == FileOps(store, base, f)
  {
    hide FileOps;
    var ops := FileOps(store, base, f);
    if ops.Ok? { assert ops.value + [] == ops.value; }
  }

  /** The request after one more file. */
  lemma RequestStep(store: BlobStore, base: Blobs, files: seq<FilePatch>, i: nat)
    requires i < |files| && Request(store, base, files[..i]).Ok?
    ensures var before, now := Request(store, base, files[..i]), FileOps(store, base, files[i]);
            && (now.Ok? ==> Request(store, base, files[..i + 1]) == Ok(before.value + now.value))
            && (now.Err? ==> Request(store, base, files) == Err(now.error))
  {
    hide FileOps;
    RequestOne(store, base, files[i]);
    assert files[..i + 1] == files[..i] + [files[i]];
    RequestAppend(store, base, files[..i], [files[i]]);
    assert files == files[..i + 1] + files[i + 1..];
    RequestAppend(store, base, files[..i + 1], files[i + 1..]);
  }

  /**
   * The source's loop over the files, updating the predicted blobs and the tree request side by
   * side. The prediction is what replaying the request over the base gives.
   */
  method RewriteTree(store: BlobStore, baseBlobs: Blobs, files: seq<FilePatch>)
      returns (r: Result<Rewritten, RewriteError>)
    ensures match Request(store, baseBlobs, files)
            case Err(e) => r == Err(e)
            case Ok(ops) => r == Ok(Rewritten(Replay(baseBlobs, ops), ops))
    ensures r.Ok? <==> forall f <- files :: Feasible(store, baseBlobs, f)
    ensures r.Ok? && Disjoint(files) ==> forall f <- files | Sided(f) :: Done(store, baseBlobs, f, r.value.expected)
    ensures r.Err? ==>
              exists i | 0 <= i < |files| :: RefusedAt(store, baseBlobs, files, i, r.error)
  {
    RewriteMeans(store, baseBlobs, files);
    FirstRefused(store, baseBlobs, files);
    hide RefusedAt, Feasible;
    hide Apply, Replay, Request;
    var expected: Blobs := baseBlobs;
    var input: seq<TreeOp> := [];
    RequestNothing(store, baseBlobs);
    assert files[..0] == [];
    for i := 0 to |files|
      invariant Request(store, baseBlobs, files[..i]) == Ok(input)
      invariant expected == Replay(baseBlobs, input)
    {
      var file := files[i];
      ghost var ops, prior, before := FileOps(store, baseBlobs, file), input, expected;
      RequestStep(store, baseBlobs, files, i);
      if ops.Ok? { ReplayAppend(baseBlobs, input, ops.value); }
      var target := file.Path();
      var entry := BaseEntry(baseBlobs, file);
      if file.change == Delete {
        if entry.None? { return Err(DeletesAbsent); }
        expected := expected - {file.oldPath.value};
        input := input + [Remove(file.oldPath.value)];
        ReplayOne(before, Remove(file.oldPath.value));
        continue;
      }
      if file.change == Add && target in baseBlobs { return Err(AddsExisting); }
      if (file.change == Modify || file.change == Rename) && entry.None? { return Err(ModifiesAbsent); }
      var content := if entry.Some? then store.content(entry.value.sha) else "";
      var applied := ApplyFileHunks(content, file.hunks);
      if applied.Err? { return Err(NotApplicable(applied.error)); }
      var blobSha := store.sha(applied.value);
      var mode := if entry.Some? then entry.value.mode else "100644";
      expected := expected[target := Entry(mode, blobSha)];
      input := input + [Put(target, mode, blobSha)];
      ReplayOne(before, Put(target, mode, blobSha));
      assert [Put(target, mode, blobSha)] + [] == [Put(target, mode, blobSha)];
      if file.change == Rename && file.oldPath.Some? && file.oldPath.value != "" {
        expected := expected - {file.oldPath.value};
        input := input + [Remove(file.oldPath.value)];
        ReplayTwo(before, Put(target, mode, blobSha), Remove(file.oldPath.value));
        assert input == prior + ([Put(target, mode, blobSha)] + [Remove(file.oldPath.value)]);
      }
    }
    assert files[..|files|] == files;
    return Ok(Rewritten(expected, input));
  }

  lemma RequestNothing(store: BlobStore, base: Blobs)
    ensures Request(store, base, []) == Ok([]) && Replay(base, []) == base
  {
  }

  lemma ReplayOne(blobs: Blobs, op: TreeOp)
    ensures Replay(blobs, [op]) == ApplyOp(blobs, op)
  {
  }

  lemma ReplayTwo(blobs: Blobs, first: TreeOp, second: TreeOp)
    ensures Replay(blobs, [first] + [second]) == ApplyOp(ApplyOp(blobs, first), second)
  {
    assert ([first] + [second])[1..] == [second];
    ReplayOne(ApplyOp(blobs, first), second);
  }

  // What the rewritten tree holds, path by path.

  function At(blobs: Blobs, path: string): Option<Entry> { if path in blobs then Some(blobs[path]) else None }

  /** The paths a file patch writes or removes. */
  function Touched(f: FilePatch): set<string> {
    (if f.change == Delete then {} else {f.Path()})
    + (if (f.change == Delete || f.change == Rename) && f.oldPath.Some? then {f.oldPath.value} else {})
  }

  predicate Touches(ops: seq<TreeOp>, path: string) { exists op <- ops :: op.path == path }

  lemma {:induction false} ReplayUntouched(blobs: Blobs, ops: seq<TreeOp>, path: string)
    requires !Touches(ops, path)
    ensures At(Replay(blobs, ops), path) == At(blobs, path)
    decreases ops
  {
    if ops != [] {
      assert ops[0] in ops;
      assert forall op <- ops[1..] :: op in ops;
      ReplayUntouched(ApplyOp(blobs, ops[0]), ops[1..], path);
    }
  }

  /** An operation on `path` makes what was there before irrelevant. */
  lemma {:induction false} ReplayTouched(a: Blobs, b: Blobs, ops: seq<TreeOp>, path: string)
    requires Touches(ops, path) || At(a, path) == At(b, path)
    ensures At(Replay(a, ops), path) == At(Replay(b, ops), path)
    decreases ops
  {
    if ops != [] {
      assert ops == [ops[0]] + ops[1..];
      ReplayTouched(ApplyOp(a, ops[0]), ApplyOp(b, ops[0]), ops[1..], path);
    }
  }

  lemma FileOpsTouch(store: BlobStore, base: Blobs, f: FilePatch, path: string)
    requires FileOps(store, base, f).Ok?
    ensures Touches(FileOps(store, base, f).value, path) ==> path in Touched(f)
  {
    hide Apply;
  }

  lemma {:induction false} RequestTouches(store: BlobStore, base: Blobs, files: seq<FilePatch>, path: string)
    requires Request(store, base, files).Ok? && forall f <- files :: path !in Touched(f)
    ensures !Touches(Request(store, base, files).value, path)
  {
    hide FileOps, Touched;
    if files != [] {
      assert files[0] in files;
      assert forall f <- files[1..] :: f in files;
      RequestTouches(store, base, files[1..], path);
      FileOpsTouch(store, base, files[0], path);
    }
  }

  /** A path no section touches keeps its entry, and stays absent if it was. */
  lemma UntouchedKept(store: BlobStore, base: Blobs, files: seq<FilePatch>, path: string)
    requires Request(store, base, files).Ok? && forall f <- files :: path !in Touched(f)
    ensures At(Replay(base, Request(store, base, files).value), path) == At(base, path)
  {
    RequestTouches(store, base, files, path);
    ReplayUntouched(base, Request(store, base, files).value, path);
  }

  /** No path occurs in two sections. */
  predicate Disjoint(files: seq<FilePatch>) {
    forall i, j | 0 <= i < j < |files| :: Touched(files[i]) !! Touched(files[j])
  }

  /** The entry a single section gives a path. */
  function Outcome(store: BlobStore, base: Blobs, f: FilePatch, path: string): Option<Entry>
    requires FileOps(store, base, f).Ok?
  {
    At(Replay(base, FileOps(store, base, f).value), path)
  }

  lemma {:induction false} RequestOk(store: BlobStore, base: Blobs, files: seq<FilePatch>)
    ensures Request(store, base, files).Ok? <==> forall f <- files :: FileOps(store, base, f).Ok?
  {
    hide FileOps;
    if files != [] {
      RequestOk(store, base, files[1..]);
      assert files == [files[0]] + files[1..];
    }
  }

  /** With no path in two sections, a touched path gets what its one section gives it. */
  lemma SectionDecides(store: BlobStore, base: Blobs, files: seq<FilePatch>, i: nat, path: string)
    requires Request(store, base, files).Ok? && Disjoint(files)
    requires i < |files| && path in Touched(files[i])
    ensures FileOps(store, base, files[i]).Ok?
    ensures At(Replay(base, Request(store, base, files).value), path) == Outcome(store, base, files[i], path)
  {
    hide FileOps, Touched, Touches, Replay;
    var before, f, after := files[..i], files[i], files[i + 1..];
    RequestOk(store, base, files);
    assert files == before + [f] + after;
    RequestAppend(store, base, before + [f], after);
    RequestAppend(store, base, before, [f]);
    RequestOne(store, base, f);
    var x, y, z := Request(store, base, before).value, FileOps(store, base, f).value, Request(store, base, after).value;
    ReplayAppend(base, x + y, z);
    ReplayAppend(base, x, y);
    OthersAway(files, i, path);
    RequestTouches(store, base, before, path);
    RequestTouches(store, base, after, path);
    ReplayUntouched(Replay(Replay(base, x), y), z, path);
    ReplayUntouched(base, x, path);
    ReplayTouched(Replay(base, x), base, y, path);
  }

  lemma OthersAway(files: seq<FilePatch>, i: nat, path: string)
    requires Disjoint(files) && i < |files| && path in Touched(files[i])
    ensures (forall f <- files[..i] :: path !in Touched(f)) && (forall f <- files[i + 1..] :: path !in Touched(f))
  {
    hide Touched;
    forall f | f in files[..i] ensures path !in Touched(f) {
      var j :| 0 <= j < i && files[j] == f;
      assert Touched(files[j]) !! Touched(files[i]);
    }
    forall f | f in files[i + 1..] ensures path !in Touched(f) {
      var j :| 0 <= j < |files[i + 1..]| && files[i + 1..][j] == f;
      assert Touched(files[i]) !! Touched(files[i + 1 + j]);
    }
  }

  /** A modified file keeps its mode and gets the patched content. */
  lemma ModifiedEntry(store: BlobStore, base: Blobs, f: FilePatch, path: string)
    requires f.change == Modify && f.oldPath == f.newPath == Some(path)
    requires FileOps(store, base, f).Ok?
    ensures path in base && Apply(store.content(base[path].sha), f.hunks).Ok?
    ensures Outcome(store, base, f, path)
         == Some(Entry(base[path].mode, store.sha(Apply(store.content(base[path].sha), f.hunks).value)))
  {
    hide Apply;
    var ops := FileOps(store, base, f).value;
    assert ops == [ops[0]];
    ReplayOne(base, ops[0]);
  }

  // What each kind of change comes to.

  /** The sides a section of a diff has, by its kind of change. */
  predicate Sided(f: FilePatch) {
    && (f.change == Add ==> f.oldPath.None? && f.newPath.Some?)
    && (f.change == Delete ==> f.oldPath.Some? && f.newPath.None?)
    && (f.change == Modify ==> f.newPath.Some? && f.oldPath == f.newPath)
    && (f.change == Rename ==> f.oldPath.Some? && f.newPath.Some? && f.oldPath != f.newPath)
  }

  /** The base has what the section starts from, lacks what it adds, and its hunks apply. */
  predicate Feasible(store: BlobStore, base: Blobs, f: FilePatch) {
    var old' := f.oldPath.Some? && f.oldPath.value != "" && f.oldPath.value in base;
    && (f.change != Add ==> old')
    && (f.change == Add ==> f.Path() !in base)
    && (f.change != Delete ==> Apply(if old' then store.content(base[f.oldPath.value].sha) else "", f.hunks).Ok?)
  }

  /** What the tree holds after the section. */
  predicate Done(store: BlobStore, base: Blobs, f: FilePatch, tree: Blobs) {
    match f.change
    case Delete => f.oldPath.Some? && f.oldPath.value in base && f.oldPath.value !in tree
    case Add =>
      f.newPath.Some? && f.newPath.value !in base && f.newPath.value in tree && Apply("", f.hunks).Ok?
      && tree[f.newPath.value] == Entry("100644", store.sha(Apply("", f.hunks).value))
    case _ =>
      && f.oldPath.Some? && f.newPath.Some? && f.oldPath.value in base && f.newPath.value in tree
      && var before := base[f.oldPath.value];
      && Apply(store.content(before.sha), f.hunks).Ok?
      && tree[f.newPath.value] == Entry(before.mode, store.sha(Apply(store.content(before.sha), f.hunks).value))
      && (f.change == Rename ==> f.oldPath.value !in tree)
  }

  lemma OpsFeasible(store: BlobStore, base: Blobs, f: FilePatch)
    ensures FileOps(store, base, f).Ok? <==> Feasible(store, base, f)
  {
    hide Apply;
  }

  /** Why a section is not feasible. */
  predicate Refused(store: BlobStore, base: Blobs, f: FilePatch, error: RewriteError) {
    var old' := f.oldPath.Some? && f.oldPath.value != "" && f.oldPath.value in base;
    match error
    case DeletesAbsent => f.change == Delete && !old'
    case AddsExisting => f.change == Add && f.Path() in base
    case ModifiesAbsent => (f.change == Modify || f.change == Rename) && !old'
    case NotApplicable(reason) =>
      && f.change != Delete && (f.change == Add ==> f.Path() !in base) && (f.change != Add ==> old')
      && Apply(if old' then store.content(base[f.oldPath.value].sha) else "", f.hunks) == Err(reason)
  }

  /** Section `i` is the first that is not feasible, and `error` says why. */
  predicate RefusedAt(store: BlobStore, base: Blobs, files: seq<FilePatch>, i: nat, error: RewriteError)
    requires i < |files|
  {
    Refused(store, base, files[i], error) && forall f <- files[..i] :: Feasible(store, base, f)
  }

  lemma {:induction false} FirstRefused(store: BlobStore, base: Blobs, files: seq<FilePatch>)
    ensures var r := Request(store, base, files);
            r.Err? ==> exists i | 0 <= i < |files| :: RefusedAt(store, base, files, i, r.error)
  {
    hide FileOps, Feasible, Refused;
    var r := Request(store, base, files);
    if r.Err? {
      OpsFeasible(store, base, files[0]);
      if FileOps(store, base, files[0]).Ok? {
        FirstRefused(store, base, files[1..]);
        RefusedLater(store, base, files, r.error);
      } else {
        OpsRefused(store, base, files[0]);
        assert RefusedAt(store, base, files, 0, r.error);
      }
    }
  }

  lemma RefusedLater(store: BlobStore, base: Blobs, files: seq<FilePatch>, error: RewriteError)
    requires files != [] && Feasible(store, base, files[0])
    requires exists i | 0 <= i < |files[1..]| :: RefusedAt(store, base, files[1..], i, error)
    ensures exists i | 0 <= i < |files| :: RefusedAt(store, base, files, i, error)
  {
    hide Feasible, Refused;
    var i :| 0 <= i < |files[1..]| && RefusedAt(store, base, files[1..], i, error);
    assert files[..i + 1] == [files[0]] + files[1..][..i];
    assert RefusedAt(store, base, files, i + 1, error);
  }

  lemma OpsRefused(store: BlobStore, base: Blobs, f: FilePatch)
    ensures FileOps(store, base, f).Err? ==> Refused(store, base, f, FileOps(store, base, f).error)
  {
    hide Apply;
  }

  /** One section on its own. */
  lemma OutcomeDone(store: BlobStore, base: Blobs, f: FilePatch)
    requires FileOps(store, base, f).Ok? && Sided(f)
    ensures var tree := Replay(base, FileOps(store, base, f).value); Done(store, base, f, tree)
  {
    hide Apply;
    var ops := FileOps(store, base, f).value;
    if |ops| == 1 {
      assert ops == [ops[0]];
      ReplayOne(base, ops[0]);
    } else {
      assert ops == [ops[0]] + [ops[1]];
      ReplayTwo(base, ops[0], ops[1]);
    }
  }

  /** `Done` looks at the section's own paths only. */
  lemma DoneElsewhere(store: BlobStore, base: Blobs, f: FilePatch, t: Blobs, u: Blobs)
    requires Sided(f) && Done(store, base, f, t) && forall path | path in Touched(f) :: At(t, path) == At(u, path)
    ensures Done(store, base, f, u)
  {
    hide Apply;
    if f.change != Delete { assert f.Path() in Touched(f) && At(t, f.Path()) == At(u, f.Path()); }
    if f.change == Delete || f.change == Rename { assert f.oldPath.value in Touched(f); }
  }

  /**
   * The rewrite succeeds exactly when every section is feasible. With no path in two sections: a deleted
   * path was in the base and is gone; an added one was not there and has the plain mode and the blob of the
   * patched empty text; a modified or renamed one has the old mode and the blob of the patched old text, and
   * the old path of a rename is gone.
   */
  lemma RewriteMeans(store: BlobStore, base: Blobs, files: seq<FilePatch>)
    ensures Request(store, base, files).Ok? <==> forall f <- files :: Feasible(store, base, f)
    ensures Request(store, base, files).Ok? && Disjoint(files) ==>
              forall f <- files | Sided(f) :: Done(store, base, f, Replay(base, Request(store, base, files).value))
  {
    hide FileOps, Feasible, Done, Sided, Touched, Replay, Request, Disjoint;
    RequestOk(store, base, files);
    forall f ensures FileOps(store, base, f).Ok? <==> Feasible(store, base, f) { OpsFeasible(store, base, f); }
    if Request(store, base, files).Ok? && Disjoint(files) {
      var tree := Replay(base, Request(store, base, files).value);
      forall f | f in files && Sided(f) ensures Done(store, base, f, tree) {
        var i :| 0 <= i < |files| && files[i] == f;
        OutcomeDone(store, base, f);
        var own := Replay(base, FileOps(store, base, f).value);
        forall path | path in Touched(f) ensures At(own, path) == At(tree, path) {
          SectionDecides(store, base, files, i, path);
        }
        DoneElsewhere(store, base, f, own, tree);
      }
    }
  }

  // Section order.

  lemma DisjointPermuted(files: seq<FilePatch>, other: seq<FilePatch>)
    requires multiset(files) == multiset(other) && Disjoint(files)
    ensures Disjoint(other)
  {
    hide Touched;
    forall i, j | 0 <= i < j < |other| ensures Touched(other[i]) !! Touched(other[j]) {
      if other[i] == other[j] {
        var a, b := RepeatPermuted(other, files, i, j);
        assert Touched(files[a]) !! Touched(files[b]);
      } else {
        assert other[i] in multiset(files) && other[j] in multiset(files);
        var a :| 0 <= a < |files| && files[a] == other[i];
        var b :| 0 <= b < |files| && files[b] == other[j];
        if a < b {
          assert Touched(files[a]) !! Touched(files[b]);
        } else {
          assert Touched(files[b]) !! Touched(files[a]);
        }
      }
    }
  }

  /** If no path occurs in two sections, neither success nor the resulting tree depends on section order. */
  lemma OrderIrrelevant(store: BlobStore, base: Blobs, files: seq<FilePatch>, other: seq<FilePatch>)
    requires multiset(files) == multiset(other) && Disjoint(files)
    ensures Request(store, base, files).Ok? <==> Request(store, base, other).Ok?
    ensures Request(store, base, files).Ok? ==>
              Replay(base, Request(store, base, files).value) == Replay(base, Request(store, base, other).value)
  {
    hide FileOps, Touched, Replay, Request;
    PermutedMembers(files, other);
    RequestOk(store, base, files);
    RequestOk(store, base, other);
    DisjointPermuted(files, other);
    if Request(store, base, files).Ok? {
      var t, u := Replay(base, Request(store, base, files).value), Replay(base, Request(store, base, other).value);
      forall path ensures At(t, path) == At(u, path) {
        if f :| f in files && path in Touched(f) {
          var i :| 0 <= i < |files| && files[i] == f;
          var j :| 0 <= j < |other| && other[j] == f;
          SectionDecides(store, base, files, i, path);
          SectionDecides(store, base, other, j, path);
        } else {
          UntouchedKept(store, base, files, path);
          UntouchedKept(store, base, other, path);
        }
      }
      SameEverywhere(t, u);
    }
  }

  lemma SameEverywhere(t: Blobs, u: Blobs)
    requires forall path :: At(t, path) == At(u, path)
    ensures t == u
  {
    forall path ensures path in t <==> path in u { assert At(t, path) == At(u, path); }
    forall path | path in t ensures t[path] == u[path] { assert At(t, path) == At(u, path); }
  }
}
